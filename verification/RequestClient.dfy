/** The Python client: from the strings that a caller passes to the bytes of a request. */
module RequestClient {
  import opened Wire
  import opened RequestCodec

  /** A string of the caller in the encoding of the connection; empty also stands for None. */
  type Text = seq<Octet>

  /** `add_str_to_binary`: a string that is missing or empty is sent as no bytes, any other with a
      zero byte after it. */
  function Terminated(s: Text): CString { if s == [] then [] else s + [0] }

  function All<A, B>(f: A -> B, s: seq<A>): seq<B> { seq(|s|, i requires 0 <= i < |s| => f(s[i])) }

  function SentTable(t: TableOf<Text>): Table {
    Table(Terminated(t.db), Terminated(t.table), Terminated(t.index), t.fieldNum, All(Terminated, t.fields))
  }

  function SentFilter(f: FilterOf<Text>): Filter { Filter(Terminated(f.field), f.flag, Terminated(f.value)) }

  function SentValue(v: ValueOf<Text>): Value { Value(v.flag, Terminated(v.value)) }

  function SentKey(k: seq<Text>): seq<CString> { All(Terminated, k) }

  function SentFind(f: FindOf<Text>): Find {
    Find(SentTable(f.table), All(SentKey, f.keys), f.flag, f.start, f.limit, All(SentFilter, f.filters))
  }

  /** A request as it travels. */
  function Sent(r: RequestOf<Text>): Request {
    match r
    case Finding(kind, f) => Finding(kind, SentFind(f))
    case Updating(f, vs) => Updating(SentFind(f), All(SentValue, vs))
    case Inserting(t, vs) => Inserting(SentTable(t), All(SentValue, vs))
  }

  /** Whatever the caller passes, if the client lets it through, meets its verdict in either decoder.
      One that is accepted comes back with all bytes consumed, up to the terminating zero bytes, the
      name of the primary key, and fields, filters and values beyond the first 256. */
  lemma {:induction false} CallRoundTrip(v: Version, r: RequestOf<Text>)
    requires RequestOk(Sent(r))
    ensures RequestFits(Sent(r))
    ensures Decode(v, KindOf(r), Encode(Sent(r))) == Outcome(VerdictOn(v, r), NormalRequest(Sent(r)), [])
  {
    ClientVerdict(v, Sent(r));
    RoundTrip(v, Sent(r));
    hide Decode, Encode, RequestOk, RequestFits, NormalRequest, FindVerdict, FullVerdict;
    if !r.Inserting? { SentVerdict(v, r.find); }
  }

  lemma SentVerdict(v: Version, f: FindOf<Text>)
    ensures FindVerdict(v, SentFind(f)) == FindVerdict(v, f)
  {
    var g := SentFind(f);
    assert |g.keys| == |f.keys|;
    forall i | 0 <= i < |f.keys| ensures |g.keys[i]| == |f.keys[i]| { assert g.keys[i] == SentKey(f.keys[i]); }
    hide SentFind;
    assert KeysUsable(g) <==> KeysUsable(f);
  }

  // ---- nothing the caller says is lost on the way

  lemma TerminatedOnce(a: Text, b: Text)
    requires Terminated(a) == Terminated(b)
    ensures a == b
  {
    if a != [] {
      assert a == Terminated(a)[..|Terminated(a)| - 1] && b == Terminated(b)[..|Terminated(b)| - 1];
    }
  }

  lemma {:induction false} StringsKept(a: seq<Text>, b: seq<Text>)
    requires All(Terminated, a) == All(Terminated, b)
    ensures a == b
  {
    assert |a| == |All(Terminated, a)| == |b|;
    forall i | 0 <= i < |a| ensures a[i] == b[i] {
      assert All(Terminated, a)[i] == Terminated(a[i]) && All(Terminated, b)[i] == Terminated(b[i]);
      TerminatedOnce(a[i], b[i]);
    }
  }

  lemma {:induction false} TableKept(a: TableOf<Text>, b: TableOf<Text>)
    requires SentTable(a) == SentTable(b)
    ensures a == b
  {
    hide Terminated, All;
    TerminatedOnce(a.db, b.db);
    TerminatedOnce(a.table, b.table);
    TerminatedOnce(a.index, b.index);
    StringsKept(a.fields, b.fields);
  }

  lemma {:induction false} KeysKept(a: seq<seq<Text>>, b: seq<seq<Text>>)
    requires All(SentKey, a) == All(SentKey, b)
    ensures a == b
  {
    assert |a| == |All(SentKey, a)| == |b|;
    forall i | 0 <= i < |a| ensures a[i] == b[i] {
      assert All(SentKey, a)[i] == SentKey(a[i]) && All(SentKey, b)[i] == SentKey(b[i]);
      StringsKept(a[i], b[i]);
    }
  }

  lemma {:induction false} FiltersKept(a: seq<FilterOf<Text>>, b: seq<FilterOf<Text>>)
    requires All(SentFilter, a) == All(SentFilter, b)
    ensures a == b
  {
    assert |a| == |All(SentFilter, a)| == |b|;
    forall i | 0 <= i < |a| ensures a[i] == b[i] {
      assert All(SentFilter, a)[i] == SentFilter(a[i]) && All(SentFilter, b)[i] == SentFilter(b[i]);
      hide Terminated;
      TerminatedOnce(a[i].field, b[i].field);
      TerminatedOnce(a[i].value, b[i].value);
    }
  }

  lemma {:induction false} ValuesKept(a: seq<ValueOf<Text>>, b: seq<ValueOf<Text>>)
    requires All(SentValue, a) == All(SentValue, b)
    ensures a == b
  {
    assert |a| == |All(SentValue, a)| == |b|;
    forall i | 0 <= i < |a| ensures a[i] == b[i] {
      assert All(SentValue, a)[i] == SentValue(a[i]) && All(SentValue, b)[i] == SentValue(b[i]);
      hide Terminated;
      TerminatedOnce(a[i].value, b[i].value);
    }
  }

  lemma FindKept(a: FindOf<Text>, b: FindOf<Text>)
    requires SentFind(a) == SentFind(b)
    ensures a == b
  {
    hide SentTable, All;
    TableKept(a.table, b.table);
    KeysKept(a.keys, b.keys);
    FiltersKept(a.filters, b.filters);
  }

  /** Different requests differ on the way. */
  lemma SentOnce(a: RequestOf<Text>, b: RequestOf<Text>)
    requires Sent(a) == Sent(b)
    ensures a == b
  {
    hide SentTable, SentFind, All;
    match a {
      case Finding(_, f) => FindKept(f, b.find);
      case Updating(f, vs) => FindKept(f, b.find); ValuesKept(vs, b.values);
      case Inserting(t, vs) => TableKept(t, b.table); ValuesKept(vs, b.values);
    }
  }

  /** Two requests of the same kind whose bytes agree are the same. */
  lemma {:induction false} BytesTellRequests(a: RequestOf<Text>, b: RequestOf<Text>)
    requires RequestFits(Sent(a)) && RequestFits(Sent(b)) && KindOf(a) == KindOf(b)
    requires Encode(Sent(a)) == Encode(Sent(b))
    ensures a == b
  {
    hide Encode, RequestFits, All;
    EncodeOnce(Sent(a), Sent(b));
    SentOnce(a, b);
  }

  // ---- what the client lets through and the server refuses

  function Sample(keys: seq<seq<Text>>, flag: nat): RequestOf<Text> {
    Finding(Get, Find(Table([100], [116], [], 1, [[102]]), keys, flag, 0, 0, []))
  }

  predicate SampleKeys(keys: seq<seq<Text>>) {
    && 0 < |keys| < U32
    && forall i | 0 <= i < |keys| :: |keys[i]| < U32 && forall j | 0 <= j < |keys[i]| :: keys[i][j] == [49]
  }

  lemma SampleOk(keys: seq<seq<Text>>, flag: nat)
    requires flag < FIND_END && SampleKeys(keys)
    ensures RequestOk(Sent(Sample(keys, flag)))
  {
    var f := Sent(Sample(keys, flag)).find;
    forall i | 0 <= i < |f.keys| ensures AllFit(f.keys[i]) {
      assert f.keys[i] == SentKey(keys[i]);
      forall j | 0 <= j < |f.keys[i]| ensures f.keys[i][j] == [49, 0] { assert f.keys[i][j] == Terminated(keys[i][j]); }
    }
    assert |f.table.fields| == 1 && f.table.fields[0] == Terminated([102]);
  }

  lemma SampleMeets(v: Version, keys: seq<seq<Text>>, flag: nat)
    requires flag < FIND_END && SampleKeys(keys)
    ensures var r := Sample(keys, flag);
            && RequestOk(Sent(r)) && RequestFits(Sent(r))
            && Decode(v, Get, Encode(Sent(r))) == Outcome(VerdictOn(v, r), NormalRequest(Sent(r)), [])
  {
    hide Decode, Encode, RequestOk, RequestFits, NormalRequest, Sent, VerdictOn, SampleKeys;
    SampleOk(keys, flag);
    CallRoundTrip(v, Sample(keys, flag));
  }

  /** A key without parts, and a range with one key. */
  lemma RefusedByServer(v: Version)
    ensures RefusedSample(v, [[]], 0) && RefusedSample(v, [[[49]]], FIND_BETWEEN)
  {
    hide Decode, Encode, RequestOk, RequestFits, NormalRequest, Sent;
    SampleMeets(v, [[]], 0);
    SampleMeets(v, [[[49]]], FIND_BETWEEN);
    assert |Sample([[]], 0).find.keys[0]| == 0;
  }

  /** The client lets the sample through and the server refuses it. */
  predicate RefusedSample(v: Version, keys: seq<seq<Text>>, flag: nat) {
    var r := Sample(keys, flag);
    RequestOk(Sent(r)) && RequestFits(Sent(r)) && !Usable(r) && Decode(v, Get, Encode(Sent(r))).Fail?
  }

  /** `n` keys of `m` parts each. */
  function Grid(n: nat, m: nat): seq<seq<Text>> { seq(n, _ => seq(m, _ => [49])) }

  /** The client lets the sample through, it is usable, and the decoder goes past its arrays. */
  predicate OverrunSample(v: Version, keys: seq<seq<Text>>) {
    var r := Sample(keys, 0);
    RequestOk(Sent(r)) && RequestFits(Sent(r)) && Usable(r) && Decode(v, Get, Encode(Sent(r))) == Wild
  }

  predicate AcceptedSample(v: Version, keys: seq<seq<Text>>) {
    var r := Sample(keys, 0);
    RequestOk(Sent(r)) && RequestFits(Sent(r)) && Decode(v, Get, Encode(Sent(r))) == Ok(NormalRequest(Sent(r)), [])
  }

  /** Eleven keys are too many for the first decoder and fine for the second, if it gets the memory;
      a key of eleven parts is too long for both. */
  lemma BeyondTheArrays(v: Version)
    ensures OverrunSample(V1, Grid(11, 1)) && AcceptedSample(V2(true), Grid(11, 1))
    ensures OverrunSample(v, Grid(1, 11))
  {
    hide Decode, Encode, RequestOk, RequestFits, NormalRequest, Sent;
    SampleMeets(V1, Grid(11, 1), 0);
    SampleMeets(V2(true), Grid(11, 1), 0);
    SampleMeets(v, Grid(1, 11), 0);
    assert |Sample(Grid(1, 11), 0).find.keys[0]| == 11;
  }
}
