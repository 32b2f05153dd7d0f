/** The marks of `http_parser_execute`: the bytes since a mark are called back when the mark is
    cleared or the input ends, and together that is what the reference says byte by byte. */
module HttpMarks {
  import opened HttpParser
  import opened HttpRun

  datatype Call = Data(piece: Piece, bytes: seq<Byte>) | Told(notice: Notice)

  // ---- which marks a transition leaves set

  predicate LegalOne(kinds: set<Piece>, a: Action) {
    match a
    case Mark(k) => k != Body && Active(kinds, k == Url) == Unmarked
    case Flush(k) => k in kinds && Active(kinds, k == Url) == As(k) && Active(kinds - {k}, k == Url) == Unmarked
    case Raise(_) => kinds == {}
    case Deliver => false
  }

  function AfterOne(kinds: set<Piece>, a: Action): set<Piece> {
    match a case Mark(k) => kinds + {k} case Flush(k) => kinds - {k} case _ => kinds
  }

  /** A mark is set only where none of its group is set, cleared only where it is set, and notices
      are raised only while none is. */
  predicate Legal(kinds: set<Piece>, acts: seq<Action>) {
    acts == [] ||
    (Legal(kinds, acts[..|acts| - 1]) && LegalOne(After(kinds, acts[..|acts| - 1]), acts[|acts| - 1]))
  }

  function After(kinds: set<Piece>, acts: seq<Action>): set<Piece> {
    if acts == [] then kinds else AfterOne(After(kinds, acts[..|acts| - 1]), acts[|acts| - 1])
  }

  lemma {:induction false} LegalOneAct(kinds: set<Piece>, a: Action)
    ensures Legal(kinds, [a]) == LegalOne(kinds, a) && After(kinds, [a]) == AfterOne(kinds, a)
  {
    assert [a][..0] == [];
  }

  lemma {:induction false} LegalTwoActs(kinds: set<Piece>, a: Action, b: Action)
    ensures Legal(kinds, [a, b]) == (LegalOne(kinds, a) && LegalOne(AfterOne(kinds, a), b))
    ensures After(kinds, [a, b]) == AfterOne(AfterOne(kinds, a), b)
  {
    LegalOneAct(kinds, a);
    assert [a, b][..1] == [a];
  }

  /** The actions lead from the marks of the old state to the marks of the new one. */
  predicate Consistent(s: State, out: Outcome) {
    match out
    case Next(q, acts) => Legal(Kinds(s), acts) && After(Kinds(s), acts) == Kinds(q.state)
    case Fail(acts) => Legal(Kinds(s), acts)
    case Exit(_, acts) => Legal(Kinds(s), acts) && After(Kinds(s), acts) == {}
    case _ => true
  }

  lemma {:induction false} NoActs()
    ensures forall kinds: set<Piece> :: Legal(kinds, []) && After(kinds, []) == kinds
  {
  }

  lemma {:induction false} Notices()
    ensures forall n: Notice :: Legal({}, [Raise(n)]) && After({}, [Raise(n)]) == {}
    ensures forall n: Notice, m: Notice :: Legal({}, [Raise(n), Raise(m)]) && After({}, [Raise(n), Raise(m)]) == {}
  {
    forall n: Notice ensures Legal({}, [Raise(n)]) && After({}, [Raise(n)]) == {} { LegalOneAct({}, Raise(n)); }
    forall n: Notice, m: Notice ensures Legal({}, [Raise(n), Raise(m)]) && After({}, [Raise(n), Raise(m)]) == {} {
      LegalTwoActs({}, Raise(n), Raise(m));
    }
  }

  lemma {:induction false} StartConsistent(p: Parser, ch: Byte)
    ensures p.state.StartReqOrRes? || p.state.ResOrRespH? || p.state.StartRes? || p.state.StartReq? ==>
            Consistent(p.state, StartMove(p, ch))
    ensures p.state.ReqMethod? ==> Consistent(p.state, MethodMove(p, ch))
  {
    hide Legal, After, OtherMethod, MethodName;
    NoActs(); Notices();
  }

  lemma {:induction false} ChunkConsistent(p: Parser, ch: Byte)
    requires Kinds(p.state) == {}
    ensures Consistent(p.state, ChunkMove(p, ch)) && Consistent(p.state, ProtocolMove(p, ch))
  {
    hide Legal, After, Unhex;
    NoActs();
  }

  lemma {:induction false} VersionConsistent(p: Parser, ch: Byte)
    requires Kinds(p.state) == {}
    ensures Consistent(p.state, VersionMove(p, ch)) && Consistent(p.state, ResponseMove(p, ch))
  {
    hide Legal, After;
    NoActs();
  }

  lemma {:induction false} HostActs()
    ensures Legal({}, [Mark(Url), Mark(Path)]) && After({}, [Mark(Url), Mark(Path)]) == {Url, Path}
    ensures Legal({}, [Mark(Url)]) && After({}, [Mark(Url)]) == {Url}
    ensures Legal({Url}, [Mark(Path)]) && After({Url}, [Mark(Path)]) == {Url, Path}
    ensures Legal({Url}, [Flush(Url)]) && After({Url}, [Flush(Url)]) == {}
  {
    LegalTwoActs({}, Mark(Url), Mark(Path));
    LegalOneAct({}, Mark(Url));
    LegalOneAct({Url}, Mark(Path));
    LegalOneAct({Url}, Flush(Url));
  }

  lemma {:induction false} HostConsistent(p: Parser, ch: Byte)
    ensures Consistent(p.state, HostMove(p, ch))
  {
    hide Legal, After;
    NoActs(); HostActs();
  }

  /** A part of the URL starts inside it, ends with it, or ends before it. */
  lemma {:induction false} PartActs(k: Piece)
    requires k == Path || k == Query || k == Fragment
    ensures Legal({Url}, [Mark(k)]) && After({Url}, [Mark(k)]) == {Url, k}
    ensures Legal({Url, k}, [Flush(k)]) && After({Url, k}, [Flush(k)]) == {Url}
    ensures Legal({Url, k}, [Flush(Url), Flush(k)]) && After({Url, k}, [Flush(Url), Flush(k)]) == {}
  {
    LegalOneAct({Url}, Mark(k));
    LegalOneAct({Url, k}, Flush(k));
    LegalTwoActs({Url, k}, Flush(Url), Flush(k));
    assert {Url, k} - {k} == {Url} && {Url, k} - {Url} == {k};
  }

  lemma {:induction false} UrlConsistent(p: Parser, ch: Byte)
    ensures Consistent(p.state, UrlMove(p, ch))
  {
    if p.state.ReqPath? || p.state.ReqQueryStart? || p.state.ReqQuery? {
      PathConsistent(p, ch);
    } else {
      FragmentConsistent(p, ch);
    }
    hide UrlMove, Consistent;
  }

  lemma {:induction false} PathConsistent(p: Parser, ch: Byte)
    requires p.state.ReqPath? || p.state.ReqQueryStart? || p.state.ReqQuery?
    ensures Consistent(p.state, UrlMove(p, ch))
  {
    hide Legal, After, NormalUrl;
    NoActs(); HostActs(); PartActs(Path); PartActs(Query);
  }

  lemma {:induction false} FragmentConsistent(p: Parser, ch: Byte)
    requires !(p.state.ReqPath? || p.state.ReqQueryStart? || p.state.ReqQuery?)
    ensures Consistent(p.state, UrlMove(p, ch))
  {
    hide Legal, After, NormalUrl;
    NoActs(); HostActs(); PartActs(Fragment);
  }

  lemma {:induction false} HeaderActs(k: Piece)
    requires k == Field || k == Value
    ensures Legal({}, [Mark(k)]) && After({}, [Mark(k)]) == {k}
    ensures Legal({k}, [Flush(k)]) && After({k}, [Flush(k)]) == {}
    ensures Legal({}, [Mark(k), Flush(k)]) && After({}, [Mark(k), Flush(k)]) == {}
  {
    LegalOneAct({}, Mark(k));
    LegalOneAct({k}, Flush(k));
    LegalTwoActs({}, Mark(k), Flush(k));
  }

  lemma {:induction false} LineConsistent(p: Parser, ch: Byte)
    requires Kinds(p.state) == {}
    ensures Consistent(p.state, HeadersDone(p, ch)) && Consistent(p.state, HeaderDone(p, ch, []))
  {
    hide Legal, After;
    NoActs(); Notices();
  }

  lemma {:induction false} FieldStartConsistent(p: Parser, ch: Byte)
    requires p.state == HeaderFieldStart
    ensures Consistent(p.state, FieldStartMove(p, ch))
  {
    hide Legal, After, Token, HeadersDone;
    NoActs(); HeaderActs(Field);
    LineConsistent(p.(state := HeadersAlmostDone), ch);
  }

  lemma {:induction false} FieldConsistent(p: Parser, ch: Byte)
    requires p.state == HeaderField
    ensures Consistent(p.state, FieldMove(p, ch))
  {
    hide Legal, After, Token, Sought;
    NoActs(); HeaderActs(Field);
  }

  lemma {:induction false} ValueStartConsistent(p: Parser, ch: Byte)
    requires p.state == HeaderValueStart
    ensures Consistent(p.state, ValueStartMove(p, ch))
  {
    hide Legal, After, Lower;
    NoActs(); HeaderActs(Value);
  }

  lemma {:induction false} ValueConsistent(p: Parser, ch: Byte)
    requires p.state == HeaderValue
    ensures Consistent(p.state, ValueMove(p, ch))
  {
    hide Legal, After, Lower, Sought;
    NoActs(); HeaderActs(Value);
  }

  /** Outside the body, after every byte exactly those marks are set that a call starting in the
      new state would set at its first byte. */
  lemma {:induction false} MarksFollowState(p: Parser, ch: Byte)
    requires !InBody(p.state)
    ensures Consistent(p.state, Step(p, ch))
  {
    hide Legal, After, StartMove, ProtocolMove, ResponseMove, VersionMove, HostMove, UrlMove, MethodMove,
         FieldStartMove,
         HeadersDone, HeaderDone, FieldMove, ValueStartMove, ValueMove, ChunkMove, BodyMove;
    NoActs();
    var q := if Counted(p.state) then p.(nread := p.nread + 1) else p;
    match q.state {
      case StartReqOrRes | ResOrRespH | StartRes | StartReq | ReqMethod => StartConsistent(q, ch);
      case ReqSpaces | ReqSchema | ReqSchemaSlash | ReqSchemaSlashSlash | ReqHost | ReqPort => HostConsistent(q, ch);
      case ReqPath | ReqQueryStart | ReqQuery | ReqFragmentStart | ReqFragment => UrlConsistent(q, ch);
      case HeaderFieldStart => FieldStartConsistent(q, ch);
      case HeaderAlmostDone | HeadersAlmostDone => LineConsistent(q, ch);
      case HeaderField => FieldConsistent(q, ch);
      case HeaderValueStart => ValueStartConsistent(q, ch);
      case HeaderValue => ValueConsistent(q, ch);
      case _ => ChunkConsistent(q, ch); VersionConsistent(q, ch);
    }
  }

  // ---- the calls made, and what is still to be called back

  function Bytes(k: Piece, s: seq<Byte>): seq<Item> {
    seq(|s|, i requires 0 <= i < |s| => Datum(k, s[i]))
  }

  function CallItems(c: Call, url: bool): seq<Item> {
    match c
    case Data(k, bytes) => if (k == Url) == url then Bytes(k, bytes) else []
    case Told(n) => [Event(n)]
  }

  /** What a log of calls adds up to, for the URL or for everything else. */
  function Trace(log: seq<Call>, url: bool): seq<Item> {
    if log == [] then [] else Trace(log[..|log| - 1], url) + CallItems(log[|log| - 1], url)
  }

  lemma TraceAppend(log: seq<Call>, c: Call, url: bool)
    ensures Trace(log + [c], url) == Trace(log, url) + CallItems(c, url)
  {
    assert (log + [c])[..|log|] == log;
  }

  predicate MarksOk(marks: map<Piece, nat>, i: nat) {
    Body !in marks && forall k | k in marks :: marks[k] <= i
  }

  /** The bytes from the mark up to `i`. */
  function Pending(marks: map<Piece, nat>, data: seq<Byte>, i: nat, url: bool): seq<Item>
    requires i <= |data| && MarksOk(marks, i)
  {
    match Active(marks.Keys, url)
    case Unmarked => []
    case As(k) => Bytes(k, data[marks[k]..i])
  }

  /** One action at byte `i`: the marks and the calls afterwards. */
  function Act(marks: map<Piece, nat>, log: seq<Call>, data: seq<Byte>, i: nat,
      a: Action): (r: (map<Piece, nat>, seq<Call>))
    requires i <= |data| && MarksOk(marks, i) && LegalOne(marks.Keys, a)
    ensures MarksOk(r.0, i) && r.0.Keys == AfterOne(marks.Keys, a)
  {
    match a
    case Mark(k) => (marks[k := i], log)
    case Flush(k) => (marks - {k}, log + [Data(k, data[marks[k]..i])])
    case Raise(n) => (marks, log + [Told(n)])
  }

  function ActItems(a: Action): seq<Item> { match a case Raise(n) => [Event(n)] case _ => [] }

  lemma MarkKeeps(marks: map<Piece, nat>, data: seq<Byte>, i: nat, k: Piece, url: bool)
    requires i <= |data| && MarksOk(marks, i) && LegalOne(marks.Keys, Mark(k))
    ensures MarksOk(marks[k := i], i) && Pending(marks[k := i], data, i, url) == Pending(marks, data, i, url)
  {
  }

  lemma FlushKeeps(marks: map<Piece, nat>, data: seq<Byte>, i: nat, k: Piece, url: bool)
    requires i <= |data| && MarksOk(marks, i) && LegalOne(marks.Keys, Flush(k))
    ensures MarksOk(marks - {k}, i)
    ensures CallItems(Data(k, data[marks[k]..i]), url) + Pending(marks - {k}, data, i, url) ==
            Pending(marks, data, i, url)
  {
    assert (marks - {k}).Keys == marks.Keys - {k};
  }

  /** Setting and clearing marks moves bytes between what is pending and what has been called, and
      changes nothing in the two together. */
  lemma ActKeeps(marks: map<Piece, nat>, log: seq<Call>, data: seq<Byte>, i: nat, a: Action, url: bool)
    requires i <= |data| && MarksOk(marks, i) && LegalOne(marks.Keys, a)
    ensures var (marks', log') := Act(marks, log, data, i, a);
            Trace(log', url) + Pending(marks', data, i, url) == Trace(log, url) + Pending(marks, data, i, url) +
              ActItems(a)
  {
    hide Trace, CallItems, Pending;
    match a {
      case Mark(k) => MarkKeeps(marks, data, i, k, url);
      case Flush(k) =>
        FlushKeeps(marks, data, i, k, url);
        TraceAppend(log, Data(k, data[marks[k]..i]), url);
      case Raise(n) =>
        TraceAppend(log, Told(n), url);
        NothingPending(marks, data, i, n, url);
    }
  }

  lemma NothingPending(marks: map<Piece, nat>, data: seq<Byte>, i: nat, n: Notice, url: bool)
    requires i <= |data| && MarksOk(marks, i) && marks.Keys == {}
    ensures Pending(marks, data, i, url) == [] && CallItems(Told(n), url) == ActItems(Raise(n))
  {
  }

  lemma Advance(marks: map<Piece, nat>, s: State, data: seq<Byte>, i: nat, url: bool)
    requires i < |data| && MarksOk(marks, i) && marks.Keys == Kinds(s)
    ensures MarksOk(marks, i + 1) &&
            Pending(marks, data, i + 1, url) == Pending(marks, data, i, url) + MarkedByte(s, data[i], url)
  {
  }
}
