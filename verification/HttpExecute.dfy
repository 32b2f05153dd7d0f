/** `http_parser_execute` as it works: a loop that sets marks, takes body bytes in bulk and calls
    back pieces of its input. */
module HttpExecute {
  import opened Common
  import opened HttpParser
  import opened HttpRun
  import opened HttpMarks

  /** What has been called back, and what the marks still hold. */
  function Total(log: seq<Call>, marks: map<Piece, nat>, data: seq<Byte>, i: nat, url: bool): seq<Item>
    requires i <= |data| && MarksOk(marks, i)
  {
    Trace(log, url) + Pending(marks, data, i, url)
  }

  lemma {:induction false} LegalPrefix(kinds: set<Piece>, acts: seq<Action>, j: nat)
    requires Legal(kinds, acts) && j < |acts|
    ensures Legal(kinds, acts[..j]) && LegalOne(After(kinds, acts[..j]), acts[j])
    ensures After(kinds, acts[..j + 1]) == AfterOne(After(kinds, acts[..j]), acts[j])
  {
    assert acts[..j + 1][..j] == acts[..j];
    if j + 1 < |acts| {
      var init := acts[..|acts| - 1];
      LegalPrefix(kinds, init, j);
      assert init[..j] == acts[..j] && init[..j + 1] == acts[..j + 1];
    } else {
      assert acts[..j + 1] == acts;
    }
  }

  lemma EventsSnoc(acts: seq<Action>, j: nat, ch: Byte, url: bool)
    requires j < |acts| && !acts[j].Deliver?
    ensures Events(acts[..j + 1], ch, url) == Events(acts[..j], ch, url) + ActItems(acts[j])
  {
    assert acts[..j + 1][..j] == acts[..j];
  }

  // ---- bulk reading of the body

  /** The parser after `n` body bytes. */
  function AfterBody(p: Parser, n: nat): Parser {
    match p.state
    case BodyIdentity =>
      var q := p.(length := p.length - n);
      if q.length == 0 then q.(state := NewMessage(q)) else q
    case ChunkData => p.(length := p.length - n, state := if p.length == n then ChunkDataAlmostDone else ChunkData)
    case _ => p
  }

  function BodyItems(p: Parser, s: seq<Byte>, url: bool): seq<Item> {
    (if url then [] else Bytes(Body, s)) +
    (if p.state.BodyIdentity? && |s| == p.length then [Event(MessageComplete)] else [])
  }

  predicate BodyFits(p: Parser, n: nat) { InBody(p.state) && (p.state.BodyIdentityEof? || n <= p.length) }

  lemma StepInBody(p: Parser, ch: Byte)
    requires InBody(p.state)
    ensures Step(p, ch) == BodyMove(p) && BodyMove(p).Next? && Kinds(BodyMove(p).q.state) == {}
  {
    hide StartMove, ProtocolMove, ResponseMove, VersionMove, HostMove, UrlMove, MethodMove, FieldStartMove,
         HeadersDone, HeaderDone, FieldMove, ValueStartMove, ValueMove, ChunkMove;
  }

  lemma AfterBodyMove(p: Parser, n: nat)
    requires Inv(p) && BodyFits(p, n + 1)
    ensures AfterBody(p, n).state == p.state && BodyMove(AfterBody(p, n)).q == AfterBody(p, n + 1)
    ensures BodyMove(AfterBody(p, n)).acts ==
            [Deliver] + if p.state.BodyIdentity? && n + 1 == p.length then [Raise(MessageComplete)] else []
  {
  }

  lemma EventsOfDeliver(ch: Byte, url: bool)
    ensures var body := if url then [] else [Datum(Body, ch)];
            && Events([Deliver], ch, url) == body
            && Events([Deliver] + [Raise(MessageComplete)], ch, url) == body + [Event(MessageComplete)]
  {
    assert [Deliver][..0] == [];
    assert ([Deliver] + [Raise(MessageComplete)])[..1] == [Deliver];
  }

  lemma BodyStep(p: Parser, n: nat, s: seq<Byte>, ch: Byte, url: bool)
    requires Inv(p) && BodyFits(p, n + 1) && |s| == n
    ensures Step(AfterBody(p, n), ch).Next? && Step(AfterBody(p, n), ch).q == AfterBody(p, n + 1)
    ensures BodyItems(p, s, url) + Spoken(Step(AfterBody(p, n), ch), ch, url) == BodyItems(p, s + [ch], url)
  {
    hide Step, Inv, BodyMove, AfterBody, Events, Kinds;
    AfterBodyMove(p, n);
    StepInBody(AfterBody(p, n), ch);
    EventsOfDeliver(ch, url);
    assert [Deliver] + [] == [Deliver];
    assert Bytes(Body, s + [ch]) == Bytes(Body, s) + [Datum(Body, ch)];
  }

  /** Taking `n` body bytes at once is taking them one at a time. */
  lemma {:induction false} BodyRun(p0: Parser, data: seq<Byte>, i: nat, n: nat, url: bool)
    requires i + n <= |data| && Run(p0, data, i).Reached?
    requires var p := Run(p0, data, i).q; Inv(p) && BodyFits(p, n)
    ensures var p := Run(p0, data, i).q;
            && Run(p0, data, i + n) == Reached(AfterBody(p, n))
            && Said(p0, data, i + n, url) == Said(p0, data, i, url) + BodyItems(p, data[i..i + n], url)
  {
    hide Step, Inv, Spoken, BodyItems;
    var p := Run(p0, data, i).q;
    if n > 0 {
      BodyRun(p0, data, i, n - 1, url);
      BodyStep(p, n - 1, data[i..i + n - 1], data[i + n - 1], url);
      assert data[i..i + n] == data[i..i + n - 1] + [data[i + n - 1]];
      assert i + n - 1 == (i + n) - 1;
    } else {
      NoBody(p, url);
      assert data[i..i] == [];
    }
  }

  lemma NoBody(p: Parser, url: bool)
    requires Inv(p) && InBody(p.state)
    ensures AfterBody(p, 0) == p && BodyItems(p, [], url) == []
  {
  }

  // ---- the loop

  /** No two marks of one group. */
  predicate Lone(kinds: set<Piece>) {
    Body !in kinds && forall k | k in kinds :: Active(kinds, k == Url) == As(k)
  }

  lemma LoneFlush(kinds: set<Piece>, k: Piece)
    requires Lone(kinds)
    ensures k in kinds ==> LegalOne(kinds, Flush(k))
    ensures Lone(kinds - {k})
  {
  }

  function EntryMarks(s: State): (marks: map<Piece, nat>)
    ensures MarksOk(marks, 0) && marks.Keys == Kinds(s)
  {
    map k | k in Kinds(s) :: 0
  }

  lemma EntryTotal(s: State, log: seq<Call>, data: seq<Byte>, url: bool)
    ensures Total(log, EntryMarks(s), data, 0, url) == Trace(log, url)
  {
  }

  /** Where the loop is after `i` bytes of a call that began with parser `p0` and log `log0`. */
  ghost predicate Going(p0: Parser, log0: seq<Call>, data: seq<Byte>, i: nat, p: Parser, marks: map<Piece, nat>,
      log: seq<Call>)
  {
    && i <= |data| && Run(p0, data, i) == Reached(p) && Inv(p)
    && MarksOk(marks, i) && marks.Keys == Kinds(p.state)
    && forall u: bool :: Total(log, marks, data, i, u) == Trace(log0, u) + Said(p0, data, i, u)
  }

  lemma GoingStart(p0: Parser, log0: seq<Call>, data: seq<Byte>)
    requires Inv(p0)
    ensures Going(p0, log0, data, 0, p0, EntryMarks(p0.state), log0)
  {
    forall u: bool { EntryTotal(p0.state, log0, data, u); }
  }

  lemma BodyStates(p: Parser, n: nat)
    requires Inv(p) && BodyFits(p, n)
    ensures Kinds(p.state) == {} && Kinds(AfterBody(p, n).state) == {} && Inv(AfterBody(p, n))
  {
  }

  lemma GoingBody(p0: Parser, log0: seq<Call>, data: seq<Byte>, i: nat, p: Parser, marks: map<Piece, nat>,
      log: seq<Call>, n: nat, log': seq<Call>)
    requires Going(p0, log0, data, i, p, marks, log) && i + n <= |data| && BodyFits(p, n)
    requires forall u: bool :: Trace(log', u) == Trace(log, u) + BodyItems(p, data[i..i + n], u)
    ensures Going(p0, log0, data, i + n, AfterBody(p, n), marks, log')
  {
    hide Trace, Said, Run, BodyItems, Pending, Inv, AfterBody, Kinds, BodyFits;
    BodyStates(p, n);
    forall u: bool ensures Total(log', marks, data, i + n, u) == Trace(log0, u) + Said(p0, data, i + n, u) {
      BodyRun(p0, data, i, n, u);
      NothingPending(marks, data, i, MessageBegin, u);
      NothingPending(marks, data, i + n, MessageBegin, u);
      assert Total(log, marks, data, i, u) == Trace(log0, u) + Said(p0, data, i, u);
      assert Total(log, marks, data, i, u) == Trace(log, u);
      assert Total(log', marks, data, i + n, u) == Trace(log', u);
    }
    BodyRun(p0, data, i, n, false);
  }

  /** After the actions of byte `i`, before the next byte. */
  ghost predicate Spent(p0: Parser, log0: seq<Call>, data: seq<Byte>, i: nat, acts: seq<Action>,
      marks: map<Piece, nat>, log: seq<Call>)
  {
    && i < |data| && MarksOk(marks, i)
    && forall u: bool ::
      Total(log, marks, data, i, u) == Trace(log0, u) + Said(p0, data, i, u) + Events(acts, data[i], u)
  }

  lemma SaidStep(p0: Parser, data: seq<Byte>, i: nat, p: Parser, q: Parser, acts: seq<Action>, url: bool)
    requires i < |data| && Run(p0, data, i) == Reached(p) && Step(p, data[i]) == Next(q, acts)
    ensures Run(p0, data, i + 1) == Reached(q)
    ensures Said(p0, data, i + 1, url) == Said(p0, data, i, url) +
            (Events(acts, data[i], url) + MarkedByte(q.state, data[i], url))
  {
    hide Step, MarkedByte, Events;
  }

  lemma GoingStep(p0: Parser, log0: seq<Call>, data: seq<Byte>, i: nat, p: Parser, q: Parser, acts: seq<Action>,
      marks: map<Piece, nat>, log: seq<Call>)
    requires Spent(p0, log0, data, i, acts, marks, log) && Run(p0, data, i) == Reached(p) && Inv(p)
    requires Step(p, data[i]) == Next(q, acts) && marks.Keys == Kinds(q.state)
    ensures Going(p0, log0, data, i + 1, q, marks, log)
  {
    hide Trace, Pending, Inv, Step, MarkedByte, Events, Kinds, Run, Said;
    StepInv(p, data[i]);
    Advance(marks, q.state, data, i, false);
    SaidStep(p0, data, i, p, q, acts, false);
    forall u: bool ensures Total(log, marks, data, i + 1, u) == Trace(log0, u) + Said(p0, data, i + 1, u) {
      Advance(marks, q.state, data, i, u);
      SaidStep(p0, data, i, p, q, acts, u);
      var m := MarkedByte(q.state, data[i], u);
      assert Total(log, marks, data, i + 1, u) == Total(log, marks, data, i, u) + m;
      assert Total(log, marks, data, i, u) == Trace(log0, u) + Said(p0, data, i, u) + Events(acts, data[i], u);
    }
  }

  /** What one call does, told by the reference run over its input. */
  ghost predicate Executed(p0: Parser, log0: seq<Call>, data: seq<Byte>, p1: Parser, log1: seq<Call>, n: nat) {
    match Run(p0, data, |data|)
    case Reached(q) =>
      n == |data| && p1 == q && forall u: bool :: Trace(log1, u) == Trace(log0, u) + Said(p0, data, |data|, u)
    case Stopped(at, Fail(_)) =>
      n == at && p1.state == Dead && forall u: bool :: Trace(log1, u) <= Trace(log0, u) + Said(p0, data, |data|, u)
    case Stopped(at, Exit(q, _)) =>
      && n == at && p1 == q.(state := p0.state, hs := p0.hs, index := p0.index, nread := p0.nread)
      && forall u: bool :: Trace(log1, u) == Trace(log0, u) + Said(p0, data, |data|, u)
    case Stopped(at, _) => n == at
  }

  /** What any sequence of calls does, told by the reference run over all their input: how the input
      was cut shows nowhere, except in the saved state of a parser that left HTTP. */
  ghost predicate Fed(p0: Parser, log0: seq<Call>, data: seq<Byte>, p1: Parser, log1: seq<Call>, n: nat) {
    match Run(p0, data, |data|)
    case Reached(q) =>
      n == |data| && p1 == q && forall u: bool :: Trace(log1, u) == Trace(log0, u) + Said(p0, data, |data|, u)
    case Stopped(at, Fail(_)) =>
      n == at && p1.state == Dead && forall u: bool :: Trace(log1, u) <= Trace(log0, u) + Said(p0, data, |data|, u)
    case Stopped(at, Exit(q, _)) =>
      n == at && p1.upgraded && forall u: bool :: Trace(log1, u) == Trace(log0, u) + Said(p0, data, |data|, u)
    case Stopped(at, _) => n == at
  }

  lemma {:induction false} ConcatPrefix(pieces: seq<seq<Byte>>, k: nat)
    requires k <= |pieces|
    ensures Concat(pieces[..k]) <= Concat(pieces)
    ensures k < |pieces| ==> Concat(pieces[..k + 1]) == Concat(pieces[..k]) + pieces[k]
  {
    if k < |pieces| {
      assert pieces[..k + 1][..k] == pieces[..k];
      var init := pieces[..|pieces| - 1];
      ConcatPrefix(init, k);
      assert init[..k] == pieces[..k];
    } else {
      assert pieces[..k] == pieces;
    }
  }

  /** A run that stopped within a first part stopped for good. */
  lemma FedMore(p0: Parser, log0: seq<Call>, a: seq<Byte>, data: seq<Byte>, p1: Parser, log1: seq<Call>, n: nat)
    requires Fed(p0, log0, a, p1, log1, n) && a <= data && Run(p0, a, |a|).Stopped?
    ensures Fed(p0, log0, data, p1, log1, n)
  {
    hide Run, Said, Trace;
    forall u: bool
      ensures Run(p0, data, |data|) == Run(p0, a, |a|) && Said(p0, data, |data|, u) == Said(p0, a, |a|, u)
    {
      assert data == a + data[|a|..];
      RunPrefix(p0, a, data[|a|..], |a|, u);
      RunStopped(p0, data, |a|, |data|, u);
    }
    assert Run(p0, data, |data|) == Run(p0, a, |a|) by {
      assert data == a + data[|a|..];
      RunPrefix(p0, a, data[|a|..], |a|, false);
      RunStopped(p0, data, |a|, |data|, false);
    }
  }

  lemma FedNext(p0: Parser, log0: seq<Call>, a: seq<Byte>, b: seq<Byte>, p1: Parser, log1: seq<Call>, p2: Parser,
      log2: seq<Call>, m: nat)
    requires Inv(p0) && Fed(p0, log0, a, p1, log1, |a|) && Run(p0, a, |a|).Reached?
    requires Executed(p1, log1, b, p2, log2, m)
    ensures Fed(p0, log0, a + b, p2, log2, |a| + m)
    ensures Run(p0, a + b, |a + b|).Reached? <==> Run(p1, b, |b|).Reached?
  {
    hide Run, Said, Trace, Inv;
    forall u: bool
      ensures Trace(log0, u) + Said(p0, a + b, |a + b|, u) == Trace(log1, u) + Said(p1, b, |b|, u)
    {
      RunAppend(p0, a, b, |b|, u);
      assert Trace(log1, u) == Trace(log0, u) + Said(p0, a, |a|, u);
    }
    RunAppend(p0, a, b, |b|, false);
    ExitUpgrades(p0, a + b);
  }

  lemma {:induction false} RunExit(p: Parser, data: seq<Byte>, i: nat)
    requires i <= |data|
    ensures match Run(p, data, i) case Stopped(_, Exit(q, _)) => q.upgraded case _ => true
  {
    hide Step;
    if i > 0 {
      RunExit(p, data, i - 1);
      match Run(p, data, i - 1) {
        case Reached(q) => StepExit(q, data[i - 1]);
        case Stopped(_, _) =>
      }
    }
  }

  lemma LineNeverExits(p: Parser, ch: Byte)
    ensures !StartMove(p, ch).Exit? && !MethodMove(p, ch).Exit? && !VersionMove(p, ch).Exit? &&
            !ResponseMove(p, ch).Exit?
    ensures !HostMove(p, ch).Exit? && !UrlMove(p, ch).Exit? && !ProtocolMove(p, ch).Exit?
  {
  }

  lemma HeaderNeverExits(p: Parser, ch: Byte)
    ensures !FieldMove(p, ch).Exit? && !ValueStartMove(p, ch).Exit? && !ValueMove(p, ch).Exit? &&
            !HeaderDone(p, ch, []).Exit?
    ensures !ChunkMove(p, ch).Exit? && !BodyMove(p).Exit?
  {
    hide Token, Lower, Unhex, Sought;
  }

  lemma HeadExits(p: Parser, ch: Byte)
    ensures HeadersDone(p, ch).Exit? ==> HeadersDone(p, ch).q.upgraded
    ensures FieldStartMove(p, ch).Exit? ==> FieldStartMove(p, ch).q.upgraded
  {
    hide Token;
  }

  lemma StepExit(p: Parser, ch: Byte)
    ensures Step(p, ch).Exit? ==> Step(p, ch).q.upgraded
  {
    hide StartMove, ProtocolMove, ResponseMove, VersionMove, HostMove, UrlMove, MethodMove, FieldStartMove,
         HeadersDone, HeaderDone, FieldMove, ValueStartMove, ValueMove, ChunkMove, BodyMove;
    var q := if Counted(p.state) then p.(nread := p.nread + 1) else p;
    LineNeverExits(q, ch);
    HeaderNeverExits(q, ch);
    HeadExits(q, ch);
  }

  lemma ExitUpgrades(p: Parser, data: seq<Byte>)
    ensures match Run(p, data, |data|) case Stopped(_, Exit(q, _)) => q.upgraded case _ => true
  {
    RunExit(p, data, |data|);
  }

  lemma StoppedHere(p0: Parser, log0: seq<Call>, data: seq<Byte>, i: nat, p: Parser, out: Outcome, acts: seq<Action>,
      marks: map<Piece, nat>, log: seq<Call>)
    requires Spent(p0, log0, data, i, acts, marks, log) && Run(p0, data, i) == Reached(p)
    requires Step(p, data[i]) == out && (out == Fail(acts) || (out.Exit? && out.acts == acts && marks.Keys == {}))
    ensures Run(p0, data, |data|) == Stopped(i, out)
    ensures forall u: bool :: Trace(log, u) <= Trace(log0, u) + Said(p0, data, |data|, u)
    ensures out.Exit? ==> forall u: bool :: Trace(log, u) == Trace(log0, u) + Said(p0, data, |data|, u)
  {
    hide Trace, Pending, Step, Events, Kinds, Run, Said, Spent;
    forall u: bool
      ensures Run(p0, data, |data|) == Stopped(i, out)
      ensures Trace(log, u) <= Trace(log0, u) + Said(p0, data, |data|, u)
      ensures out.Exit? ==> Trace(log, u) == Trace(log0, u) + Said(p0, data, |data|, u)
    {
      StoppedSays(p0, log0, data, i, p, out, acts, marks, log, u);
    }
    StoppedSays(p0, log0, data, i, p, out, acts, marks, log, false);
  }

  lemma StoppedSays(p0: Parser, log0: seq<Call>, data: seq<Byte>, i: nat, p: Parser, out: Outcome, acts: seq<Action>,
      marks: map<Piece, nat>, log: seq<Call>, u: bool)
    requires Spent(p0, log0, data, i, acts, marks, log) && Run(p0, data, i) == Reached(p)
    requires Step(p, data[i]) == out && (out == Fail(acts) || (out.Exit? && out.acts == acts && marks.Keys == {}))
    ensures Run(p0, data, |data|) == Stopped(i, out)
    ensures Trace(log, u) <= Trace(log0, u) + Said(p0, data, |data|, u)
    ensures out.Exit? ==> Trace(log, u) == Trace(log0, u) + Said(p0, data, |data|, u)
  {
    hide Trace, Pending, Step, Events, Kinds;
    assert Total(log, marks, data, i, u) == Trace(log0, u) + Said(p0, data, i, u) + Events(acts, data[i], u);
    StopSaid(p0, data, i, p, out, acts, u);
    if out.Exit? { NothingPending(marks, data, i, MessageBegin, u); }
    hide Run, Said, Spent;
    SaidSoFar(Trace(log, u), Pending(marks, data, i, u), Trace(log0, u), Said(p0, data, i, u),
      Events(acts, data[i], u));
  }

  lemma SaidSoFar(now: seq<Item>, pending: seq<Item>, before: seq<Item>, said: seq<Item>, more: seq<Item>)
    requires now + pending == before + said + more
    ensures now <= before + (said + more) && (pending == [] ==> now == before + (said + more))
  {
    assert before + said + more == before + (said + more);
  }

  lemma StopSaid(p0: Parser, data: seq<Byte>, i: nat, p: Parser, out: Outcome, acts: seq<Action>, u: bool)
    requires i < |data| && Run(p0, data, i) == Reached(p) && Step(p, data[i]) == out
    requires out == Fail(acts) || (out.Exit? && out.acts == acts)
    ensures Run(p0, data, |data|) == Stopped(i, out)
    ensures Said(p0, data, |data|, u) == Said(p0, data, i, u) + Events(acts, data[i], u)
  {
    hide Step, Events, Kinds;
    RunStopped(p0, data, i + 1, |data|, u);
  }

  class Executor {
    var parser: Parser
    var log: seq<Call>

    predicate Valid()
      reads this
    {
      Inv(parser)
    }

    /** `http_parser_init` */
    constructor (kind: Type)
      ensures Valid() && log == [] && parser.kind == kind && parser.nread == 0 && !parser.upgraded
      ensures parser.state == if kind == Request then StartReq else if kind == Response then StartRes else StartReqOrRes
    {
      var state := if kind == Request then StartReq else if kind == Response then StartRes else StartReqOrRes;
      parser := Parser(state, General, 0, 0, kind, NO_FLAGS, -1, 0, 0, 0, DELETE, false);
      log := [];
    }

    /** The actions of one byte, in order. */
    method Perform(acts: seq<Action>, marks0: map<Piece, nat>, data: seq<Byte>, i: nat) returns (marks: map<Piece, nat>)
      requires i < |data| && MarksOk(marks0, i) && Legal(marks0.Keys, acts)
      modifies this`log
      ensures MarksOk(marks, i) && marks.Keys == After(marks0.Keys, acts)
      ensures forall u: bool ::
              Total(log, marks, data, i, u) == Total(old(log), marks0, data, i, u) + Events(acts, data[i], u)
    {
      hide Trace, Pending, LegalOne, Legal, After, AfterOne;
      marks := marks0;
      var j := 0;
      AfterNone(marks0.Keys);
      while j < |acts|
        invariant j <= |acts| && MarksOk(marks, i) && marks.Keys == After(marks0.Keys, acts[..j])
        invariant forall u: bool ::
                  Total(log, marks, data, i, u) == Total(old(log), marks0, data, i, u) + Events(acts[..j], data[i], u)
      {
        LegalPrefix(marks0.Keys, acts, j);
        NoDeliver(marks.Keys, acts[j]);
        var (marks', log') := Act(marks, log, data, i, acts[j]);
        forall u: bool
          ensures Total(log', marks', data, i, u) == Total(old(log), marks0, data, i, u) +
          Events(acts[..j + 1], data[i], u) {
          ActKeeps(marks, log, data, i, acts[j], u);
          EventsSnoc(acts, j, data[i], u);
        }
        marks, log := marks', log';
        j := j + 1;
      }
      assert acts[..j] == acts;
    }

    /** The body states: as many bytes as there are, or as the body still has. */
    method TakeBody(p: Parser, data: seq<Byte>, i: nat) returns (q: Parser, n: nat)
      requires i < |data| && Inv(p) && InBody(p.state)
      modifies this`log
      ensures 0 < n <= |data| - i && BodyFits(p, n) && q == AfterBody(p, n)
      ensures forall u: bool :: Trace(log, u) == Trace(old(log), u) + BodyItems(p, data[i..i + n], u)
    {
      hide Trace;
      n := |data| - i;
      if !p.state.BodyIdentityEof? && p.length < n { n := p.length; }
      q := p;
      log := log + [Data(Body, data[i..i + n])];
      forall u: bool { TraceAppend(old(log), Data(Body, data[i..i + n]), u); }
      if p.state.BodyIdentity? {
        q := q.(length := p.length - n);
        if q.length == 0 {
          ghost var log1 := log;
          log := log + [Told(MessageComplete)];
          forall u: bool { TraceAppend(log1, Told(MessageComplete), u); }
          q := q.(state := NewMessage(q));
        }
      } else if p.state.ChunkData? {
        if n == p.length { q := q.(state := ChunkDataAlmostDone); }
        q := q.(length := p.length - n);
      }
    }

    /** The end of the input: what the marks hold is called back. */
    method FlushAll(marks0: map<Piece, nat>, data: seq<Byte>)
      requires MarksOk(marks0, |data|) && Lone(marks0.Keys)
      modifies this`log
      ensures forall u: bool :: Trace(log, u) == Total(old(log), marks0, data, |data|, u)
    {
      hide Trace, Pending, Lone, LegalOne, AfterOne, Act;
      var order := [Field, Value, Fragment, Query, Path, Url];
      var marks, j := marks0, 0;
      while j < |order|
        invariant j <= |order| && MarksOk(marks, |data|) && Lone(marks.Keys)
        invariant forall k | k in order[..j] :: k !in marks
        invariant forall u: bool :: Total(log, marks, data, |data|, u) == Total(old(log), marks0, data, |data|, u)
      {
        var k := order[j];
        LoneFlush(marks.Keys, k);
        if k in marks {
          var (marks', log') := Act(marks, log, data, |data|, Flush(k));
          forall u: bool { ActKeeps(marks, log, data, |data|, Flush(k), u); }
          FlushedKeys(marks.Keys, k);
          marks, log := marks', log';
        }
        j := j + 1;
      }
      AllFlushed(marks);
      forall u: bool ensures Trace(log, u) == Total(log, marks, data, |data|, u) {
        NothingPending(marks, data, |data|, MessageBegin, u);
      }
    }

    /** One byte outside the body. */
    method TakeByte(ghost p0: Parser, ghost log0: seq<Call>, data: seq<Byte>, i: nat, p: Parser,
        marks0: map<Piece, nat>)
      returns (out: Outcome, marks: map<Piece, nat>)
      requires i < |data| && Going(p0, log0, data, i, p, marks0, log) && !InBody(p.state)
      modifies this`log
      ensures out == Step(p, data[i]) && !out.Trips?
      ensures out.Next? || out.Fail? || out.Exit? ==> Spent(p0, log0, data, i, out.acts, marks, log)
      ensures out.Next? ==> marks.Keys == Kinds(out.q.state)
      ensures out.Exit? ==> marks.Keys == {}
    {
      hide Trace, Pending, Step, Events, Kinds, Legal, After, Inv, Run, Said, InBody, Total;
      out, marks := Step(p, data[i]), marks0;
      StepInv(p, data[i]);
      MarksFollowState(p, data[i]);
      if out.Next? || out.Fail? || out.Exit? {
        ghost var log1 := log;
        marks := Perform(out.acts, marks0, data, i);
        forall u: bool
          ensures Total(log, marks, data, i, u) == Trace(log0, u) + Said(p0, data, i, u) +
          Events(out.acts, data[i], u) {
          assert Total(log1, marks0, data, i, u) == Trace(log0, u) + Said(p0, data, i, u);
        }
      }
    }

    /** A non-empty piece of input: the number of bytes accepted. */
    method ExecuteSome(data: seq<Byte>) returns (n: nat)
      requires Valid() && data != []
      modifies this
      ensures Executed(old(parser), old(log), data, parser, log, n)
      ensures match Run(old(parser), data, |data|) case Reached(_) => Valid()
              case Stopped(_, out) => out.Fail? ==> Valid()
    {
      hide Trace, Pending, Step, Kinds, Inv, Run, Said, InBody, Total, Legal, After, AfterBody, Going, Spent, Lone;
      ghost var p0, log0 := parser, log;
      var p, marks := parser, EntryMarks(parser.state);
      n := 0;
      GoingStart(p0, log0, data);
      while n < |data|
        invariant n <= |data| && parser == p0 && Going(p0, log0, data, n, p, marks, log)
      {
        GoingFacts(p0, log0, data, n, p, marks, log);
        if InBody(p.state) {
          ghost var log1 := log;
          var q, k := TakeBody(p, data, n);
          GoingBody(p0, log0, data, n, p, marks, log1, k, log);
          p, n := q, n + k;
        } else {
          var out;
          out, marks := TakeByte(p0, log0, data, n, p, marks);
          match out {
            case Next(q, acts) =>
              GoingStep(p0, log0, data, n, p, q, acts, marks, log);
              p, n := q, n + 1;
            case Fail(acts) =>
              StoppedHere(p0, log0, data, n, p, out, acts, marks, log);
              parser := p.(state := Dead, hs := parser.hs, index := parser.index, nread := parser.nread);
              DeadInv(p, p0);
              return;
            case Exit(q, acts) =>
              StoppedHere(p0, log0, data, n, p, out, acts, marks, log);
              parser := q.(state := parser.state, hs := parser.hs, index := parser.index, nread := parser.nread);
              return;
            case Undefined =>
              UndefinedHere(p0, data, n, p);
              return;
          }
        }
      }
      GoingFacts(p0, log0, data, n, p, marks, log);
      FlushAll(marks, data);
      SavedWhole(p);
      parser := p.(index := p.index % 0x100, nread := p.nread % 0x1_0000_0000);
    }

    /** `http_parser_execute`; an empty piece announces the end of the input. */
    method Execute(data: seq<Byte>) returns (n: nat)
      requires Valid()
      modifies this
      ensures data != [] ==> Executed(old(parser), old(log), data, parser, log, n)
      ensures data != [] ==>
                match Run(old(parser), data, |data|) case Reached(_) => Valid()
                  case Stopped(_, out) => out.Fail? ==> Valid()
      ensures data == [] ==>
                && parser == old(parser)
                && log == old(log) + (if parser.state == BodyIdentityEof then [Told(MessageComplete)] else [])
                && n == (if parser.state in {BodyIdentityEof, Dead, StartReqOrRes, StartRes, StartReq} then 0 else 1)
    {
      hide Executed, Inv, Run;
      if data == [] {
        match parser.state {
          case BodyIdentityEof =>
            log := log + [Told(MessageComplete)];
            n := 0;
          case Dead | StartReqOrRes | StartRes | StartReq => n := 0;
          case _ => n := 1;
        }
      } else {
        n := ExecuteSome(data);
      }
    }

    /** Piece after piece, until one is not accepted in full. */
    method FeedAll(pieces: seq<seq<Byte>>) returns (n: nat)
      requires Valid() && forall k | 0 <= k < |pieces| :: pieces[k] != []
      modifies this
      ensures Fed(old(parser), old(log), Concat(pieces), parser, log, n)
    {
      hide Inv, Run, Said, Trace, Executed, Fed, Concat;
      ghost var p0, log0 := parser, log;
      var k := 0;
      n := 0;
      FedNothing(parser, log, pieces);
      while k < |pieces|
        invariant k <= |pieces| && Valid() && n == |Concat(pieces[..k])|
        invariant Fed(p0, log0, Concat(pieces[..k]), parser, log, n) && Run(p0, Concat(pieces[..k]), n).Reached?
      {
        ghost var a, b, p1, log1 := Concat(pieces[..k]), pieces[k], parser, log;
        var m := Execute(pieces[k]);
        ConcatPrefix(pieces, k);
        ConcatPrefix(pieces, k + 1);
        FedNext(p0, log0, a, b, p1, log1, parser, log, m);
        n := n + m;
        ExecutedAll(p1, log1, b, parser, log, m);
        if m < |pieces[k]| {
          FedMore(p0, log0, a + b, Concat(pieces), parser, log, n);
          return;
        }
        k := k + 1;
      }
      assert pieces[..k] == pieces;
    }
  }

  lemma FedNothing(p: Parser, log: seq<Call>, pieces: seq<seq<Byte>>)
    ensures Concat(pieces[..0]) == [] && Fed(p, log, [], p, log, 0) && Run(p, [], 0).Reached?
  {
  }

  lemma ExecutedAll(p0: Parser, log0: seq<Call>, data: seq<Byte>, p1: Parser, log1: seq<Call>, n: nat)
    requires Inv(p0) && Executed(p0, log0, data, p1, log1, n)
    ensures n <= |data| && (n == |data| <==> Run(p0, data, |data|).Reached?)
  {
    hide Run, Inv;
    RunInv(p0, data, |data|);
  }

  lemma GoingFacts(p0: Parser, log0: seq<Call>, data: seq<Byte>, i: nat, p: Parser, marks: map<Piece, nat>,
      log: seq<Call>)
    requires Going(p0, log0, data, i, p, marks, log)
    ensures i <= |data| && Run(p0, data, i) == Reached(p) && Inv(p) && MarksOk(marks, i) && Lone(marks.Keys)
    ensures forall u: bool :: Total(log, marks, data, i, u) == Trace(log0, u) + Said(p0, data, i, u)
  {
    hide Trace, Run, Said, Total, Inv;
  }

  lemma DeadInv(p: Parser, p0: Parser)
    requires Inv(p) && Inv(p0)
    ensures Inv(p.(state := Dead, hs := p0.hs, index := p0.index, nread := p0.nread))
  {
  }

  lemma UndefinedHere(p0: Parser, data: seq<Byte>, i: nat, p: Parser)
    requires i < |data| && Run(p0, data, i) == Reached(p) && Step(p, data[i]) == Undefined
    ensures Run(p0, data, |data|) == Stopped(i, Undefined)
  {
    hide Step;
    RunStopped(p0, data, i + 1, |data|, false);
  }

  /** The counters survive being saved in 8 and 32 bits. */
  lemma SavedWhole(p: Parser)
    requires Inv(p)
    ensures p.(index := p.index % 0x100, nread := p.nread % 0x1_0000_0000) == p
  {
  }

  lemma FlushedKeys(kinds: set<Piece>, k: Piece)
    ensures AfterOne(kinds, Flush(k)) == kinds - {k}
  {
  }

  lemma AllFlushed(marks: map<Piece, nat>)
    requires Lone(marks.Keys)
    requires forall k | k in [Field, Value, Fragment, Query, Path, Url] :: k !in marks
    ensures marks.Keys == {}
  {
    forall k: Piece ensures k !in marks.Keys {
      assert k != Body ==> k in [Field, Value, Fragment, Query, Path, Url];
    }
  }

  lemma AfterNone(kinds: set<Piece>)
    ensures After(kinds, []) == kinds
  {
  }

  lemma NoDeliver(kinds: set<Piece>, a: Action)
    requires LegalOne(kinds, a)
    ensures !a.Deliver?
  {
  }
}
