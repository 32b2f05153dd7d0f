/** Requests on the wire: the encoders of the Python client, and what the server's decoders make of
    any sequence of bytes. */
module RequestCodec {
  import opened Wire

  const MAX_FIELDS := 256
  const MAX_KEYS := 10
  const FIND_IN := 5
  const FIND_BETWEEN := 7
  const FIND_END := 8
  const FILTER_END := 6
  const UPDATE_END := 4

  /** A string as it travels: nothing at all, or bytes that end in a zero byte. */
  type CString = s: seq<Octet> | s != [] ==> s[|s| - 1] == 0

  const PRIMARY: CString := [80, 82, 73, 77, 65, 82, 89, 0]

  /** Requests over strings of type `S`: bytes on the wire, or what the caller passes to the client.
      `fieldNum` counts all fields sent; only the first 256 are kept. */
  datatype TableOf<S> = Table(db: S, table: S, index: S, fieldNum: nat, fields: seq<S>)

  datatype FilterOf<S> = Filter(field: S, flag: nat, value: S)

  datatype ValueOf<S> = Value(flag: nat, value: S)

  datatype FindOf<S> = Find(table: TableOf<S>, keys: seq<seq<S>>, flag: nat, start: nat, limit: nat,
      filters: seq<FilterOf<S>>)

  datatype Kind = Get | Count | Update | Delete | Insert

  datatype RequestOf<S> =
    | Finding(kind: Kind, find: FindOf<S>)
    | Updating(find: FindOf<S>, values: seq<ValueOf<S>>)
    | Inserting(table: TableOf<S>, values: seq<ValueOf<S>>)

  type Table = TableOf<CString>
  type Filter = FilterOf<CString>
  type Value = ValueOf<CString>
  type Find = FindOf<CString>
  type Request = RequestOf<CString>

  function KindOf<S>(r: RequestOf<S>): Kind {
    match r case Finding(k, _) => k case Updating(_, _) => Update case Inserting(_, _) => Insert
  }

  // ---- the client

  function EncodeString(s: CString): seq<Octet>
    requires Fits(s)
  {
    Be32(|s|) + s
  }

  predicate Fits(s: CString) { |s| < U32 }

  predicate AllFit(ss: seq<CString>) { |ss| < U32 && forall i | 0 <= i < |ss| :: Fits(ss[i]) }

  function EncodeStrings(ss: seq<CString>): seq<Octet>
    requires forall i | 0 <= i < |ss| :: Fits(ss[i])
  {
    if ss == [] then [] else EncodeString(ss[0]) + EncodeStrings(ss[1..])
  }

  /** `add_array_to_binary` */
  function EncodeArray(ss: seq<CString>): seq<Octet>
    requires AllFit(ss)
  {
    Be32(|ss|) + EncodeStrings(ss)
  }

  function EncodeKeys(keys: seq<seq<CString>>): seq<Octet>
    requires forall i | 0 <= i < |keys| :: AllFit(keys[i])
  {
    if keys == [] then [] else EncodeArray(keys[0]) + EncodeKeys(keys[1..])
  }

  predicate TableFits(t: Table) {
    Fits(t.db) && Fits(t.table) && Fits(t.index) && AllFit(t.fields) && |t.fields| == t.fieldNum
  }

  function EncodeTable(t: Table): seq<Octet>
    requires TableFits(t)
  {
    EncodeString(t.db) + (EncodeString(t.table) + (EncodeString(t.index) + EncodeArray(t.fields)))
  }

  predicate FilterFits(f: Filter) { Fits(f.field) && f.flag < 256 && Fits(f.value) }

  function EncodeFilter(f: Filter): seq<Octet>
    requires FilterFits(f)
  {
    EncodeString(f.field) + ([f.flag] + EncodeString(f.value))
  }

  function EncodeFilters(fs: seq<Filter>): seq<Octet>
    requires forall i | 0 <= i < |fs| :: FilterFits(fs[i])
  {
    if fs == [] then [] else EncodeFilter(fs[0]) + EncodeFilters(fs[1..])
  }

  predicate ValueFits(v: Value) { v.flag < 256 && Fits(v.value) }

  function EncodeValue(v: Value): seq<Octet>
    requires ValueFits(v)
  {
    [v.flag] + EncodeString(v.value)
  }

  function EncodeValues(vs: seq<Value>): seq<Octet>
    requires forall i | 0 <= i < |vs| :: ValueFits(vs[i])
  {
    if vs == [] then [] else EncodeValue(vs[0]) + EncodeValues(vs[1..])
  }

  predicate FindFits(f: Find) {
    && TableFits(f.table) && |f.keys| < U32 && (forall i | 0 <= i < |f.keys| :: AllFit(f.keys[i]))
    && f.flag < 256 && f.start < U32 && f.limit < U32
    && |f.filters| < U32 && (forall i | 0 <= i < |f.filters| :: FilterFits(f.filters[i]))
  }

  function EncodeFind(f: Find): seq<Octet>
    requires FindFits(f)
  {
    EncodeTable(f.table) + (Be32(|f.keys|) + (EncodeKeys(f.keys) + ([f.flag] + (Be32(f.start) + (Be32(f.limit) +
    (Be32(|f.filters|) + EncodeFilters(f.filters)))))))
  }

  predicate ValuesFit(vs: seq<Value>) { |vs| < U32 && forall i | 0 <= i < |vs| :: ValueFits(vs[i]) }

  function EncodeUpdates(vs: seq<Value>): seq<Octet>
    requires ValuesFit(vs)
  {
    Be32(|vs|) + EncodeValues(vs)
  }

  predicate RequestFits(r: Request) {
    match r
    case Finding(kind, f) => (kind.Get? || kind.Count? || kind.Delete?) && FindFits(f)
    case Updating(f, vs) => FindFits(f) && ValuesFit(vs)
    case Inserting(t, vs) => TableFits(t) && ValuesFit(vs)
  }

  /** `to_binary` */
  function Encode(r: Request): seq<Octet>
    requires RequestFits(r)
  {
    match r
    case Finding(_, f) => EncodeFind(f)
    case Updating(f, vs) => EncodeFind(f) + EncodeUpdates(vs)
    case Inserting(t, vs) => EncodeTable(t) + EncodeUpdates(vs)
  }

  // ---- the server

  datatype Error = Bad | OutOfIn

  /** `Wild`: the decoder reads or writes past one of its arrays. */
  datatype Result<T> = Ok(value: T, rest: seq<Octet>) | Fail(error: Error) | Wild {
    predicate IsFailure() { !Ok? }

    function PropagateFailure<U>(): Result<U>
      requires IsFailure()
    {
      if Wild? then Wild else Fail(error)
    }

    function Extract(): (T, seq<Octet>)
      requires Ok?
    {
      (value, rest)
    }
  }

  function ReadU8(s: seq<Octet>): Result<nat> { if s == [] then Fail(Bad) else Ok(s[0], s[1..]) }

  function ReadU32(s: seq<Octet>): Result<nat> { if |s| < 4 then Fail(Bad) else Ok(FromBe32(s[..4]), s[4..]) }

  function ReadString(s: seq<Octet>): Result<CString> {
    var (n, t) :- ReadU32(s);
    if |t| < n || (n > 0 && t[n - 1] != 0) then Fail(Bad) else
      var x: CString := t[..n];
      Ok(x, t[n..])
  }

  function ReadStrings(n: nat, s: seq<Octet>): Result<seq<CString>> {
    if n == 0 then Ok([], s) else
      var (x, t) :- ReadString(s);
      var (xs, u) :- ReadStrings(n - 1, t);
      Ok([x] + xs, u)
  }

  function Stored<T>(xs: seq<T>, limit: nat): seq<T> { if |xs| <= limit then xs else xs[..limit] }

  function ReadTable(s: seq<Octet>, needField: bool): Result<Table> {
    var (db, s1) :- ReadString(s);
    var (table, s2) :- ReadString(s1);
    var (index, s3) :- ReadString(s2);
    var (n, s4) :- ReadU32(s3);
    var (fields, s5) :- ReadStrings(n, s4);
    if db == [] || table == [] || (needField && n == 0) then Fail(Bad)
    else
      var used: CString := if index == [] then PRIMARY else index;
      Ok(Table(db, table, used, n, Stored(fields, MAX_FIELDS)), s5)
  }

  /** The parts of a key from part `j` on; the eleventh part has no place to go. */
  function ReadParts(j: nat, n: nat, s: seq<Octet>): Result<seq<CString>>
    requires j <= n
    decreases n - j
  {
    if j == n then Ok([], s)
    else if j >= MAX_KEYS && |s| >= 4 then Wild
    else
      var (x, t) :- ReadString(s);
      var (xs, u) :- ReadParts(j + 1, n, t);
      Ok([x] + xs, u)
  }

  function ReadKeys(n: nat, s: seq<Octet>): Result<seq<seq<CString>>> {
    if n == 0 then Ok([], s) else
      var (parts, t) :- ReadU32(s);
      var (key, u) :- ReadParts(0, parts, t);
      var (keys, v) :- ReadKeys(n - 1, u);
      Ok([key] + keys, v)
  }

  /** Filters from number `i` on; the flags of those beyond the limit are not checked. */
  function ReadFilters(i: nat, n: nat, s: seq<Octet>): Result<seq<Filter>>
    requires i <= n
    decreases n - i
  {
    if i == n then Ok([], s) else
      var (field, s1) :- ReadString(s);
      var (flag, s2) :- ReadU8(s1);
      if i < MAX_FIELDS && flag >= FILTER_END then Fail(Bad) else
        var (value, s3) :- ReadString(s2);
        var (fs, s4) :- ReadFilters(i + 1, n, s3);
        Ok([Filter(field, flag, value)] + fs, s4)
  }

  function ReadValues(i: nat, n: nat, s: seq<Octet>): Result<seq<Value>>
    requires i <= n
    decreases n - i
  {
    if i == n then Ok([], s) else
      var (flag, s1) :- ReadU8(s);
      if i < MAX_FIELDS && flag >= UPDATE_END then Fail(Bad) else
        var (value, s2) :- ReadString(s1);
        var (vs, s3) :- ReadValues(i + 1, n, s2);
        Ok([Value(flag, value)] + vs, s3)
  }

  /** The two decoders: the second allocates room for more than ten keys, if it can. */
  datatype Version = V1 | V2(alloc: bool)

  function Room(v: Version, keyNum: nat): nat { if v == V2(true) && keyNum > MAX_KEYS then keyNum else MAX_KEYS }

  /** The checks after the keys. The last one looks at every key, stored or not. */
  function CheckFind(v: Version, keys: seq<seq<CString>>, flag: nat, rest: seq<Octet>): Result<()> {
    var room := Room(v, |keys|);
    if v.V2? && |keys| > room && flag == FIND_IN then Fail(OutOfIn)
    else if |keys| < 2 && flag == FIND_BETWEEN then Fail(OutOfIn)
    else if flag >= FIND_END || keys == [] then Fail(Bad)
    else if exists i | 0 <= i < |keys| :: i < room && keys[i] == [] then Fail(Bad)
    else if |keys| > room then Wild
    else Ok((), rest)
  }

  /** The part of `ReadFind` after the keys. */
  function ReadTail(v: Version, table: Table, keys: seq<seq<CString>>, s: seq<Octet>): Result<Find> {
    var (flag, s4) :- ReadU8(s);
    var (start, s5) :- ReadU32(s4);
    var (limit, s6) :- ReadU32(s5);
    var (_, s7) :- CheckFind(v, keys, flag, s6);
    var (m, s8) :- ReadU32(s7);
    var (filters, s9) :- ReadFilters(0, m, s8);
    Ok(Find(table, keys, flag, start, limit, Stored(filters, MAX_FIELDS)), s9)
  }

  function ReadFind(v: Version, s: seq<Octet>, needField: bool): Result<Find> {
    var (table, s1) :- ReadTable(s, needField);
    var (n, s2) :- ReadU32(s1);
    var (keys, s3) :- ReadKeys(n, s2);
    ReadTail(v, table, keys, s3)
  }

  function ReadUpdates(fieldNum: nat, s: seq<Octet>): Result<seq<Value>> {
    var (n, s1) :- ReadU32(s);
    if n != fieldNum then Fail(Bad) else
      var (vs, s2) :- ReadValues(0, n, s1);
      Ok(Stored(vs, MAX_FIELDS), s2)
  }

  /** All but delete and count report every failure alike. */
  function Plain<T>(r: Result<T>): Result<T> { if r.Fail? then Fail(Bad) else r }

  function ReadRequest(v: Version, kind: Kind, s: seq<Octet>): Result<Request> {
    match kind
    case Get =>
      var (f, t) :- Plain(ReadFind(v, s, true));
      Ok(Finding(Get, f), t)
    case Count =>
      var (f, t) :- ReadFind(v, s, false);
      Ok(Finding(Count, f), t)
    case Delete =>
      var (f, t) :- ReadFind(v, s, false);
      Ok(Finding(Delete, f), t)
    case Update =>
      var (f, t) :- Plain(ReadFind(v, s, true));
      var (vs, u) :- ReadUpdates(f.table.fieldNum, t);
      Ok(Updating(f, vs), u)
    case Insert =>
      var (table, t) :- ReadTable(s, false);
      var (vs, u) :- ReadUpdates(table.fieldNum, t);
      Ok(Inserting(table, vs), u)
  }

  /** A request must use up its packet. */
  function Decode(v: Version, kind: Kind, s: seq<Octet>): Result<Request> {
    var (r, t) :- ReadRequest(v, kind, s);
    if t == [] then Ok(r, []) else Fail(Bad)
  }

  // ---- more input changes nothing that was read

  /** On more input, what was read is read again, and what was beyond repair stays so. */
  ghost predicate Extends<T>(a: Result<T>, b: Result<T>, more: seq<Octet>) {
    match a
    case Ok(x, rest) => b == Ok(x, rest + more)
    case Wild => b == Wild
    case Fail(_) => true
  }

  lemma ReadU8More(s: seq<Octet>, more: seq<Octet>)
    ensures Extends(ReadU8(s), ReadU8(s + more), more)
  {
    if s != [] { assert (s + more)[1..] == s[1..] + more; }
  }

  lemma ReadU32More(s: seq<Octet>, more: seq<Octet>)
    ensures Extends(ReadU32(s), ReadU32(s + more), more)
  {
    if |s| >= 4 { assert (s + more)[..4] == s[..4] && (s + more)[4..] == s[4..] + more; }
  }

  lemma ReadStringMore(s: seq<Octet>, more: seq<Octet>)
    ensures Extends(ReadString(s), ReadString(s + more), more)
  {
    hide FromBe32;
    ReadU32More(s, more);
    if ReadString(s).Ok? {
      var (n, t) := ReadU32(s).Extract();
      assert (t + more)[..n] == t[..n] && (t + more)[n..] == t[n..] + more;
    }
  }

  lemma {:induction false} ReadStringsMore(n: nat, s: seq<Octet>, more: seq<Octet>)
    ensures Extends(ReadStrings(n, s), ReadStrings(n, s + more), more)
  {
    hide ReadString;
    if n > 0 {
      ReadStringMore(s, more);
      if ReadString(s).Ok? { ReadStringsMore(n - 1, ReadString(s).rest, more); }
    }
  }

  lemma {:induction false} ReadPartsMore(j: nat, n: nat, s: seq<Octet>, more: seq<Octet>)
    requires j <= n
    ensures Extends(ReadParts(j, n, s), ReadParts(j, n, s + more), more)
    decreases n - j
  {
    hide ReadString;
    if j < n {
      ReadStringMore(s, more);
      ReadStringShort(s);
      if ReadString(s).Ok? { ReadPartsMore(j + 1, n, ReadString(s).rest, more); }
    }
  }

  lemma ReadStringShort(s: seq<Octet>)
    ensures ReadString(s).Ok? ==> |s| >= 4
    ensures !ReadString(s).Wild?
  {
  }

  lemma {:induction false} ReadKeysMore(n: nat, s: seq<Octet>, more: seq<Octet>)
    ensures Extends(ReadKeys(n, s), ReadKeys(n, s + more), more)
  {
    hide ReadU32, ReadParts;
    if n > 0 {
      ReadU32More(s, more);
      if ReadU32(s).Ok? {
        var (parts, t) := ReadU32(s).Extract();
        ReadPartsMore(0, parts, t, more);
        if ReadParts(0, parts, t).Ok? { ReadKeysMore(n - 1, ReadParts(0, parts, t).rest, more); }
      }
    }
  }

  lemma {:induction false} ReadFiltersMore(i: nat, n: nat, s: seq<Octet>, more: seq<Octet>)
    requires i <= n
    ensures Extends(ReadFilters(i, n, s), ReadFilters(i, n, s + more), more)
    decreases n - i
  {
    hide ReadString, ReadU8;
    if i < n {
      ReadStringMore(s, more);
      if ReadString(s).Ok? {
        var s1 := ReadString(s).rest;
        ReadU8More(s1, more);
        if ReadU8(s1).Ok? {
          var s2 := ReadU8(s1).rest;
          ReadStringMore(s2, more);
          if ReadString(s2).Ok? { ReadFiltersMore(i + 1, n, ReadString(s2).rest, more); }
        }
      }
    }
  }

  lemma {:induction false} ReadValuesMore(i: nat, n: nat, s: seq<Octet>, more: seq<Octet>)
    requires i <= n
    ensures Extends(ReadValues(i, n, s), ReadValues(i, n, s + more), more)
    decreases n - i
  {
    hide ReadString, ReadU8;
    if i < n {
      ReadU8More(s, more);
      if ReadU8(s).Ok? {
        var s1 := ReadU8(s).rest;
        ReadStringMore(s1, more);
        if ReadString(s1).Ok? { ReadValuesMore(i + 1, n, ReadString(s1).rest, more); }
      }
    }
  }

  lemma ReadTableMore(s: seq<Octet>, needField: bool, more: seq<Octet>)
    ensures Extends(ReadTable(s, needField), ReadTable(s + more, needField), more)
  {
    hide ReadString, ReadU32, ReadStrings, Stored;
    ReadStringMore(s, more);
    if ReadString(s).Ok? {
      var s1 := ReadString(s).rest;
      ReadStringMore(s1, more);
      if ReadString(s1).Ok? {
        var s2 := ReadString(s1).rest;
        ReadStringMore(s2, more);
        if ReadString(s2).Ok? {
          var s3 := ReadString(s2).rest;
          ReadU32More(s3, more);
          if ReadU32(s3).Ok? { ReadStringsMore(ReadU32(s3).value, ReadU32(s3).rest, more); }
        }
      }
    }
  }

  lemma CheckFindMore(v: Version, keys: seq<seq<CString>>, flag: nat, rest: seq<Octet>, more: seq<Octet>)
    ensures Extends(CheckFind(v, keys, flag, rest), CheckFind(v, keys, flag, rest + more), more)
  {
  }

  lemma ReadTailMore(v: Version, table: Table, keys: seq<seq<CString>>, s: seq<Octet>, more: seq<Octet>)
    ensures Extends(ReadTail(v, table, keys, s), ReadTail(v, table, keys, s + more), more)
  {
    hide ReadU8, ReadU32, CheckFind, ReadFilters, Stored;
    ReadU8More(s, more);
    if ReadU8(s).Ok? {
      var (flag, s4) := ReadU8(s).Extract();
      ReadU32More(s4, more);
      if ReadU32(s4).Ok? {
        var s5 := ReadU32(s4).rest;
        ReadU32More(s5, more);
        if ReadU32(s5).Ok? {
          var s6 := ReadU32(s5).rest;
          CheckFindMore(v, keys, flag, s6, more);
          if CheckFind(v, keys, flag, s6).Ok? {
            var s7 := CheckFind(v, keys, flag, s6).rest;
            ReadU32More(s7, more);
            if ReadU32(s7).Ok? { ReadFiltersMore(0, ReadU32(s7).value, ReadU32(s7).rest, more); }
          }
        }
      }
    }
  }

  lemma ReadFindMore(v: Version, s: seq<Octet>, needField: bool, more: seq<Octet>)
    ensures Extends(ReadFind(v, s, needField), ReadFind(v, s + more, needField), more)
  {
    hide ReadTable, ReadU32, ReadKeys, ReadTail;
    ReadTableMore(s, needField, more);
    if ReadTable(s, needField).Ok? {
      var (table, s1) := ReadTable(s, needField).Extract();
      ReadU32More(s1, more);
      if ReadU32(s1).Ok? {
        var (n, s2) := ReadU32(s1).Extract();
        ReadKeysMore(n, s2, more);
        if ReadKeys(n, s2).Ok? { ReadTailMore(v, table, ReadKeys(n, s2).value, ReadKeys(n, s2).rest, more); }
      }
    }
  }

  lemma ReadUpdatesMore(fieldNum: nat, s: seq<Octet>, more: seq<Octet>)
    ensures Extends(ReadUpdates(fieldNum, s), ReadUpdates(fieldNum, s + more), more)
  {
    hide ReadU32, ReadValues, Stored;
    ReadU32More(s, more);
    if ReadU32(s).Ok? { ReadValuesMore(0, ReadU32(s).value, ReadU32(s).rest, more); }
  }

  lemma ReadRequestMore(v: Version, kind: Kind, s: seq<Octet>, more: seq<Octet>)
    ensures Extends(ReadRequest(v, kind, s), ReadRequest(v, kind, s + more), more)
  {
    hide ReadFind, ReadTable, ReadUpdates;
    ReadFindMore(v, s, kind.Get? || kind.Update?, more);
    ReadTableMore(s, false, more);
    if kind.Update? && ReadFind(v, s, true).Ok? {
      ReadUpdatesMore(ReadFind(v, s, true).value.table.fieldNum, ReadFind(v, s, true).rest, more);
    }
    if kind.Insert? && ReadTable(s, false).Ok? {
      ReadUpdatesMore(ReadTable(s, false).value.fieldNum, ReadTable(s, false).rest, more);
    }
  }

  /** No request is a prefix of another: once a decoder accepts some bytes, it refuses every strict
      prefix and every strict extension of them, and runs wild on none. */
  lemma AcceptedIsPrefixFree(v: Version, kind: Kind, s: seq<Octet>, more: seq<Octet>)
    requires more != []
    ensures Decode(v, kind, s).Ok? ==> Decode(v, kind, s + more) == Fail(Bad)
    ensures Decode(v, kind, s + more).Ok? ==> Decode(v, kind, s).Fail?
  {
    hide ReadRequest;
    ReadRequestMore(v, kind, s, more);
  }

  // ---- round trips

  lemma U32Back(n: nat, rest: seq<Octet>)
    requires n < U32
    ensures ReadU32(Be32(n) + rest) == Ok(n, rest)
  {
    hide Be32, FromBe32;
    Be32Prefix(n, rest);
  }

  lemma U8Back(n: Octet, rest: seq<Octet>)
    ensures ReadU8([n] + rest) == Ok(n, rest)
  {
  }

  lemma StringBack(x: CString, rest: seq<Octet>)
    requires Fits(x)
    ensures ReadString(EncodeString(x) + rest) == Ok(x, rest)
  {
    hide Be32, FromBe32, ReadU32;
    assert EncodeString(x) + rest == Be32(|x|) + (x + rest);
    U32Back(|x|, x + rest);
    assert (x + rest)[..|x|] == x && (x + rest)[|x|..] == rest;
  }

  lemma {:induction false} StringsBack(xs: seq<CString>, rest: seq<Octet>)
    requires forall i | 0 <= i < |xs| :: Fits(xs[i])
    ensures ReadStrings(|xs|, EncodeStrings(xs) + rest) == Ok(xs, rest)
  {
    hide EncodeString, ReadString, Fits;
    if xs == [] {
      assert EncodeStrings(xs) + rest == rest;
    } else {
      var tail := EncodeStrings(xs[1..]) + rest;
      assert EncodeStrings(xs) + rest == EncodeString(xs[0]) + tail;
      StringBack(xs[0], tail);
      StringsBack(xs[1..], rest);
      assert xs == [xs[0]] + xs[1..];
    }
  }

  /** What a decoder keeps of a table: the name of a missing index, and the first 256 fields. */
  function Normal(t: Table): Table {
    t.(index := if t.index == [] then PRIMARY else t.index, fields := Stored(t.fields, MAX_FIELDS))
  }

  /** A table needs a database, a name and, for some requests, fields. */
  predicate TableGood(t: Table, needField: bool) { t.db != [] && t.table != [] && (needField ==> t.fieldNum > 0) }

  predicate TableOk(t: Table, needField: bool) { TableFits(t) && TableGood(t, needField) }

  lemma TableBack(t: Table, needField: bool, rest: seq<Octet>)
    requires TableFits(t)
    ensures ReadTable(EncodeTable(t) + rest, needField) == if TableGood(t, needField) then Ok(Normal(t), rest)
            else Fail(Bad)
  {
    hide EncodeString, ReadString, EncodeStrings, ReadStrings, ReadU32, Be32;
    var s4 := EncodeStrings(t.fields) + rest;
    var s3 := Be32(t.fieldNum) + s4;
    var s2 := EncodeString(t.index) + s3;
    var s1 := EncodeString(t.table) + s2;
    assert EncodeTable(t) + rest == EncodeString(t.db) + s1;
    StringBack(t.db, s1);
    StringBack(t.table, s2);
    StringBack(t.index, s3);
    U32Back(t.fieldNum, s4);
    StringsBack(t.fields, rest);
  }

  lemma OnePart(j: nat, n: nat, s: seq<Octet>, x: CString, t: seq<Octet>, xs: seq<CString>, rest: seq<Octet>)
    requires j < n && j < MAX_KEYS && ReadString(s) == Ok(x, t) && ReadParts(j + 1, n, t) == Ok(xs, rest)
    ensures ReadParts(j, n, s) == Ok([x] + xs, rest)
  {
    hide ReadString;
  }

  lemma {:induction false} PartsBack(j: nat, xs: seq<CString>, rest: seq<Octet>)
    requires j + |xs| <= MAX_KEYS && forall i | 0 <= i < |xs| :: Fits(xs[i])
    ensures ReadParts(j, j + |xs|, EncodeStrings(xs) + rest) == Ok(xs, rest)
    decreases |xs|
  {
    hide EncodeString, ReadString, Fits;
    if xs == [] {
      assert EncodeStrings(xs) + rest == rest;
    } else {
      var tail := EncodeStrings(xs[1..]) + rest;
      assert EncodeStrings(xs) + rest == EncodeString(xs[0]) + tail;
      hide EncodeStrings, ReadParts;
      StringBack(xs[0], tail);
      PartsBack(j + 1, xs[1..], rest);
      OnePart(j, j + |xs|, EncodeString(xs[0]) + tail, xs[0], tail, xs[1..], rest);
      assert xs == [xs[0]] + xs[1..];
    }
  }

  /** An eleventh part has no place to go. */
  lemma {:induction false} PartsOverrun(j: nat, xs: seq<CString>, rest: seq<Octet>)
    requires j <= MAX_KEYS < j + |xs| && forall i | 0 <= i < |xs| :: Fits(xs[i])
    ensures ReadParts(j, j + |xs|, EncodeStrings(xs) + rest) == Wild
    decreases |xs|
  {
    hide ReadString, Fits;
    var tail := EncodeStrings(xs[1..]) + rest;
    assert EncodeStrings(xs) + rest == EncodeString(xs[0]) + tail;
    if j < MAX_KEYS {
      hide EncodeString, EncodeStrings;
      StringBack(xs[0], tail);
      PartsOverrun(j + 1, xs[1..], rest);
    }
  }

  lemma {:induction false} KeysOverrun(keys: seq<seq<CString>>, rest: seq<Octet>)
    requires forall i | 0 <= i < |keys| :: AllFit(keys[i])
    requires exists i | 0 <= i < |keys| :: |keys[i]| > MAX_KEYS
    ensures ReadKeys(|keys|, EncodeKeys(keys) + rest) == Wild
  {
    hide EncodeStrings, ReadParts, ReadU32, Be32;
    var tail := EncodeKeys(keys[1..]) + rest;
    var parts := EncodeStrings(keys[0]) + tail;
    assert EncodeKeys(keys) + rest == Be32(|keys[0]|) + parts;
    U32Back(|keys[0]|, parts);
    if |keys[0]| > MAX_KEYS {
      PartsOverrun(0, keys[0], tail);
    } else {
      PartsBack(0, keys[0], tail);
      var i :| 0 <= i < |keys| && |keys[i]| > MAX_KEYS;
      assert keys[1..][i - 1] == keys[i];
      KeysOverrun(keys[1..], rest);
    }
  }

  lemma {:induction false} KeysBack(keys: seq<seq<CString>>, rest: seq<Octet>)
    requires forall i | 0 <= i < |keys| :: |keys[i]| <= MAX_KEYS && AllFit(keys[i])
    ensures ReadKeys(|keys|, EncodeKeys(keys) + rest) == Ok(keys, rest)
  {
    hide EncodeStrings, ReadParts, ReadU32, Be32;
    if keys == [] {
      assert EncodeKeys(keys) + rest == rest;
    } else {
      var tail := EncodeKeys(keys[1..]) + rest;
      var parts := EncodeStrings(keys[0]) + tail;
      assert EncodeKeys(keys) + rest == Be32(|keys[0]|) + parts;
      U32Back(|keys[0]|, parts);
      PartsBack(0, keys[0], tail);
      KeysBack(keys[1..], rest);
      assert keys == [keys[0]] + keys[1..];
    }
  }

  predicate FilterOk(f: Filter) { FilterFits(f) && f.flag < FILTER_END }

  /** The flags of filters number `i` and on, as far as they are checked. */
  predicate FiltersGood(i: nat, fs: seq<Filter>) {
    forall k | 0 <= k < |fs| && i + k < MAX_FIELDS :: fs[k].flag < FILTER_END
  }

  lemma FiltersGoodCons(i: nat, fs: seq<Filter>)
    requires fs != []
    ensures FiltersGood(i, fs) <==> (i < MAX_FIELDS ==> fs[0].flag < FILTER_END) && FiltersGood(i + 1, fs[1..])
  {
    if FiltersGood(i, fs) {
      forall k | 0 <= k < |fs[1..]| && i + 1 + k < MAX_FIELDS ensures fs[1..][k].flag < FILTER_END {
        assert fs[k + 1].flag < FILTER_END;
      }
    } else {
      var k :| 0 <= k < |fs| && i + k < MAX_FIELDS && fs[k].flag >= FILTER_END;
      if k > 0 { assert fs[1..][k - 1].flag >= FILTER_END; }
    }
  }

  lemma {:induction false} FiltersBack(i: nat, fs: seq<Filter>, rest: seq<Octet>)
    requires forall k | 0 <= k < |fs| :: FilterFits(fs[k])
    ensures ReadFilters(i, i + |fs|, EncodeFilters(fs) + rest) == if FiltersGood(i, fs) then Ok(fs, rest) else Fail(Bad)
    decreases |fs|
  {
    hide EncodeString, ReadString, ReadU8, Fits, FiltersGood;
    if fs == [] {
      assert EncodeFilters(fs) + rest == rest;
      NoFilters(i);
    } else {
      var f := fs[0];
      var tail := EncodeFilters(fs[1..]) + rest;
      var s2 := EncodeString(f.value) + tail;
      var s1 := [f.flag] + s2;
      assert EncodeFilters(fs) + rest == EncodeString(f.field) + s1;
      hide EncodeFilters;
      StringBack(f.field, s1);
      U8Back(f.flag, s2);
      StringBack(f.value, tail);
      FiltersBack(i + 1, fs[1..], rest);
      FiltersGoodCons(i, fs);
      assert fs == [fs[0]] + fs[1..];
    }
  }

  lemma NoFilters(i: nat)
    ensures FiltersGood(i, []) && ValuesGood(i, [])
  {
  }

  predicate ValueOk(v: Value) { ValueFits(v) && v.flag < UPDATE_END }

  predicate ValuesGood(i: nat, vs: seq<Value>) {
    forall k | 0 <= k < |vs| && i + k < MAX_FIELDS :: vs[k].flag < UPDATE_END
  }

  lemma ValuesGoodCons(i: nat, vs: seq<Value>)
    requires vs != []
    ensures ValuesGood(i, vs) <==> (i < MAX_FIELDS ==> vs[0].flag < UPDATE_END) && ValuesGood(i + 1, vs[1..])
  {
    if ValuesGood(i, vs) {
      forall k | 0 <= k < |vs[1..]| && i + 1 + k < MAX_FIELDS ensures vs[1..][k].flag < UPDATE_END {
        assert vs[k + 1].flag < UPDATE_END;
      }
    } else {
      var k :| 0 <= k < |vs| && i + k < MAX_FIELDS && vs[k].flag >= UPDATE_END;
      if k > 0 { assert vs[1..][k - 1].flag >= UPDATE_END; }
    }
  }

  lemma {:induction false} ValuesBack(i: nat, vs: seq<Value>, rest: seq<Octet>)
    requires forall k | 0 <= k < |vs| :: ValueFits(vs[k])
    ensures ReadValues(i, i + |vs|, EncodeValues(vs) + rest) == if ValuesGood(i, vs) then Ok(vs, rest) else Fail(Bad)
    decreases |vs|
  {
    hide EncodeString, ReadString, ReadU8, Fits, ValuesGood;
    if vs == [] {
      assert EncodeValues(vs) + rest == rest;
      NoFilters(i);
    } else {
      var v := vs[0];
      var tail := EncodeValues(vs[1..]) + rest;
      var s1 := EncodeString(v.value) + tail;
      assert EncodeValues(vs) + rest == [v.flag] + s1;
      hide EncodeValues;
      U8Back(v.flag, s1);
      StringBack(v.value, tail);
      ValuesBack(i + 1, vs[1..], rest);
      ValuesGoodCons(i, vs);
      assert vs == [vs[0]] + vs[1..];
    }
  }

  predicate UpdatesOk(vs: seq<Value>, t: Table) {
    |vs| == t.fieldNum < U32 && forall k | 0 <= k < |vs| :: ValueOk(vs[k])
  }

  /** There must be one value for each field. */
  predicate UpdatesGood(vs: seq<Value>, t: Table) { |vs| == t.fieldNum && ValuesGood(0, vs) }

  lemma UpdatesBack(vs: seq<Value>, t: Table, rest: seq<Octet>)
    requires ValuesFit(vs)
    ensures ReadUpdates(t.fieldNum, EncodeUpdates(vs) + rest) ==
            if UpdatesGood(vs, t) then Ok(Stored(vs, MAX_FIELDS), rest) else Fail(Bad)
  {
    hide ReadU32, ReadValues, EncodeValues, Be32, ValuesGood;
    assert EncodeUpdates(vs) + rest == Be32(|vs|) + (EncodeValues(vs) + rest);
    U32Back(|vs|, EncodeValues(vs) + rest);
    ValuesBack(0, vs, rest);
  }

  /** What the client lets through. */
  predicate FindOk(f: Find, needField: bool) {
    && FindFits(f) && TableOk(f.table, needField) && f.keys != [] && f.flag < FIND_END
    && forall k | 0 <= k < |f.filters| :: FilterOk(f.filters[k])
  }

  predicate RequestOk(r: Request) {
    match r
    case Finding(kind, f) => (kind.Get? || kind.Count? || kind.Delete?) && FindOk(f, kind.Get?)
    case Updating(f, vs) => FindOk(f, true) && UpdatesOk(vs, f.table)
    case Inserting(t, vs) => TableOk(t, true) && UpdatesOk(vs, t)
  }

  /** What the server demands beyond that. */
  predicate KeysUsable<S>(f: FindOf<S>) {
    (forall i | 0 <= i < |f.keys| :: |f.keys[i]| > 0) && (f.flag == FIND_BETWEEN ==> |f.keys| >= 2)
  }

  predicate Usable<S>(r: RequestOf<S>) { r.Inserting? || KeysUsable(r.find) }

  /** What becomes of a request. `Overrun`: the decoder goes past one of its arrays. */
  datatype Verdict = Accepted | Refused(error: Error) | Overrun

  /** A key with more than ten parts does not fit, nor do more than ten keys without room for them,
      unless something else is noticed before the eleventh key is looked at. */
  function FindVerdict<S>(v: Version, f: FindOf<S>): Verdict {
    if exists i | 0 <= i < |f.keys| :: |f.keys[i]| > MAX_KEYS then Overrun
    else if |f.keys| <= Room(v, |f.keys|) then
      if KeysUsable(f) then Accepted
      else if f.flag == FIND_BETWEEN && |f.keys| < 2 then Refused(OutOfIn) else Refused(Bad)
    else if v.V2? && f.flag == FIND_IN then Refused(OutOfIn)
    else if exists i | 0 <= i < MAX_KEYS :: |f.keys[i]| == 0 then Refused(Bad)
    else Overrun
  }

  function VerdictOn<S>(v: Version, r: RequestOf<S>): Verdict {
    if r.Inserting? then Accepted
    else
      var d := FindVerdict(v, r.find);
      if d.Refused? && (r.Updating? || r.kind.Get?) then Refused(Bad) else d
  }

  /** With room for its keys and their parts, a request is accepted exactly if it is usable. */
  lemma RoomEnough<S>(v: Version, r: RequestOf<S>)
    requires !r.Inserting? ==> |r.find.keys| <= Room(v, |r.find.keys|)
    requires !r.Inserting? ==> forall i | 0 <= i < |r.find.keys| :: |r.find.keys[i]| <= MAX_KEYS
    ensures VerdictOn(v, r).Accepted? <==> Usable(r)
    ensures !VerdictOn(v, r).Overrun?
  {
  }

  function NormalFind(f: Find): Find { f.(table := Normal(f.table), filters := Stored(f.filters, MAX_FIELDS)) }

  /** What a decoder keeps of a request. */
  function NormalRequest(r: Request): Request {
    match r
    case Finding(kind, f) => Finding(kind, NormalFind(f))
    case Updating(f, vs) => Updating(NormalFind(f), Stored(vs, MAX_FIELDS))
    case Inserting(t, vs) => Inserting(Normal(t), Stored(vs, MAX_FIELDS))
  }

  /** The result that a verdict stands for. */
  function Outcome<T>(d: Verdict, value: T, rest: seq<Octet>): Result<T> {
    match d case Accepted => Ok(value, rest) case Refused(e) => Fail(e) case Overrun => Wild
  }

  /** What becomes of any search, allowed by the client or not. */
  function SearchVerdict(v: Version, f: Find): Verdict {
    if exists i | 0 <= i < |f.keys| :: |f.keys[i]| > MAX_KEYS then Overrun
    else if f.keys == [] && f.flag == FIND_BETWEEN then Refused(OutOfIn)
    else if f.keys == [] || f.flag >= FIND_END then Refused(Bad)
    else
      var d := FindVerdict(v, f);
      if d.Accepted? && !FiltersGood(0, f.filters) then Refused(Bad) else d
  }

  /** Gets and updates report every failure alike. */
  function PlainVerdict(d: Verdict): Verdict { if d.Refused? then Refused(Bad) else d }

  /** What becomes of any request that fits the wire format. */
  function FullVerdict(v: Version, r: Request): Verdict {
    match r
    case Finding(kind, f) =>
      if !TableGood(f.table, kind.Get?) then Refused(Bad)
      else if kind.Get? then PlainVerdict(SearchVerdict(v, f)) else SearchVerdict(v, f)
    case Updating(f, vs) =>
      if !TableGood(f.table, true) then Refused(Bad)
      else
        var d := PlainVerdict(SearchVerdict(v, f));
        if d.Accepted? && !UpdatesGood(vs, f.table) then Refused(Bad) else d
    case Inserting(t, vs) => if TableGood(t, false) && UpdatesGood(vs, t) then Accepted else Refused(Bad)
  }

  /** The whole of what the server demands: a table with its fields, flags that exist, one value for each
      field, keys with at least one and at most ten parts, two for a range, and room for all. */
  predicate Demands(v: Version, r: Request) {
    && (r.Inserting? || SearchDemands(v, r.find))
    && match r
       case Finding(kind, f) => TableGood(f.table, kind.Get?)
       case Updating(f, vs) => TableGood(f.table, true) && UpdatesGood(vs, f.table)
       case Inserting(t, vs) => TableGood(t, false) && UpdatesGood(vs, t)
  }

  predicate SearchDemands(v: Version, f: Find) {
    && 0 < |f.keys| <= Room(v, |f.keys|) && f.flag < FIND_END && KeysUsable(f) && FiltersGood(0, f.filters)
    && forall i | 0 <= i < |f.keys| :: |f.keys[i]| <= MAX_KEYS
  }

  /** A request is accepted exactly if it meets the demands. */
  lemma AcceptedMeets(v: Version, r: Request)
    ensures FullVerdict(v, r).Accepted? <==> Demands(v, r)
  {
    hide FiltersGood, UpdatesGood, TableGood;
  }

  /** For what the client lets through, the keys alone decide. */
  lemma ClientVerdict(v: Version, r: Request)
    requires RequestOk(r)
    ensures RequestFits(r) && FullVerdict(v, r) == VerdictOn(v, r)
  {
    match r {
      case Finding(kind, f) => ClientFilters(f.filters);
      case Updating(f, vs) => ClientFilters(f.filters); ClientValues(vs);
      case Inserting(t, vs) => ClientValues(vs);
    }
    hide FilterOk, FiltersGood, ValuesGood, AllFit, FindVerdict;
    if !r.Inserting? { TooManyParts(v, r.find); }
  }

  lemma TooManyParts(v: Version, f: Find)
    ensures (exists i | 0 <= i < |f.keys| :: |f.keys[i]| > MAX_KEYS) ==> FindVerdict(v, f) == Overrun
  {
  }

  lemma ClientFilters(fs: seq<Filter>)
    ensures (forall k | 0 <= k < |fs| :: FilterOk(fs[k])) ==> FiltersGood(0, fs)
  {
  }

  lemma ClientValues(vs: seq<Value>)
    ensures (forall k | 0 <= k < |vs| :: ValueOk(vs[k])) ==> ValuesGood(0, vs)
  {
  }

  lemma CheckBack(v: Version, f: Find, rest: seq<Octet>)
    requires forall i | 0 <= i < |f.keys| :: |f.keys[i]| <= MAX_KEYS
    ensures CheckFind(v, f.keys, f.flag, rest) ==
            if f.keys == [] && f.flag == FIND_BETWEEN then Fail(OutOfIn)
            else if f.keys == [] || f.flag >= FIND_END then Fail(Bad)
            else Outcome(FindVerdict(v, f), (), rest)
  {
    if |f.keys| > Room(v, |f.keys|) {
      assert (exists i | 0 <= i < |f.keys| :: i < MAX_KEYS && f.keys[i] == []) <==>
             exists i | 0 <= i < MAX_KEYS :: |f.keys[i]| == 0;
    }
  }

  lemma TailBack(v: Version, f: Find, t: Table, rest: seq<Octet>)
    requires FindFits(f) && forall i | 0 <= i < |f.keys| :: |f.keys[i]| <= MAX_KEYS
    ensures var s := [f.flag] +
              (Be32(f.start) + (Be32(f.limit) + (Be32(|f.filters|) + (EncodeFilters(f.filters) + rest))));
            ReadTail(v, t, f.keys, s) ==
              Outcome(SearchVerdict(v, f), f.(table := t, filters := Stored(f.filters, MAX_FIELDS)), rest)
  {
    hide ReadU8, ReadU32, CheckFind, ReadFilters, EncodeFilters, Be32, FindVerdict, Stored, FiltersGood, TableFits;
    var s8 := EncodeFilters(f.filters) + rest;
    var s7 := Be32(|f.filters|) + s8;
    var s6 := Be32(f.limit) + s7;
    var s5 := Be32(f.start) + s6;
    U8Back(f.flag, s5);
    U32Back(f.start, s6);
    U32Back(f.limit, s7);
    CheckBack(v, f, s7);
    U32Back(|f.filters|, s8);
    FiltersBack(0, f.filters, rest);
  }

  lemma FindBack(v: Version, f: Find, needField: bool, rest: seq<Octet>)
    requires FindFits(f)
    ensures ReadFind(v, EncodeFind(f) + rest, needField) ==
            if TableGood(f.table, needField) then Outcome(SearchVerdict(v, f), NormalFind(f), rest) else Fail(Bad)
  {
    hide ReadTable, EncodeTable, ReadU32, ReadKeys, EncodeKeys, ReadTail, EncodeFilters, Be32, KeysUsable, TableGood,
         Normal, Stored, FindVerdict, FiltersGood;
    var s3 := [f.flag] + (Be32(f.start) + (Be32(f.limit) + (Be32(|f.filters|) + (EncodeFilters(f.filters) + rest))));
    var s2 := EncodeKeys(f.keys) + s3;
    var s1 := Be32(|f.keys|) + s2;
    FindLayout(f, rest);
    TableBack(f.table, needField, s1);
    U32Back(|f.keys|, s2);
    if exists i | 0 <= i < |f.keys| :: |f.keys[i]| > MAX_KEYS {
      KeysOverrun(f.keys, s3);
    } else {
      KeysBack(f.keys, s3);
      hide SearchVerdict;
      TailBack(v, f, Normal(f.table), rest);
    }
  }

  lemma FindLayout(f: Find, rest: seq<Octet>)
    requires FindFits(f)
    ensures EncodeFind(f) + rest ==
            EncodeTable(f.table) + (Be32(|f.keys|) + (EncodeKeys(f.keys) +
            ([f.flag] + (Be32(f.start) + (Be32(f.limit) + (Be32(|f.filters|) + (EncodeFilters(f.filters) + rest)))))))
  {
    hide EncodeTable, EncodeKeys, EncodeFilters, Be32;
    var e := EncodeFilters(f.filters);
    var b, c, d := Be32(f.start), Be32(f.limit), Be32(|f.filters|);
    var tail := [f.flag] + (b + (c + (d + e)));
    assert tail + rest == [f.flag] + (b + (c + (d + (e + rest))));
    assert EncodeFind(f) + rest == EncodeTable(f.table) + (Be32(|f.keys|) + (EncodeKeys(f.keys) + (tail + rest)));
  }

  /** Whatever fits the wire format meets its verdict: the decoder returns what there is to keep of it
      with all bytes consumed, refuses it, or runs past its arrays. */
  lemma RoundTrip(v: Version, r: Request)
    requires RequestFits(r)
    ensures Decode(v, KindOf(r), Encode(r)) == Outcome(FullVerdict(v, r), NormalRequest(r), [])
  {
    hide ReadFind, EncodeFind, ReadTable, EncodeTable, ReadUpdates, EncodeUpdates, FindFits, TableFits, ValuesFit,
         SearchVerdict, Stored, Normal, NormalFind, TableGood, UpdatesGood;
    match r {
      case Finding(kind, f) =>
        FindBack(v, f, kind.Get?, []);
        assert EncodeFind(f) + [] == EncodeFind(f);
      case Updating(f, vs) =>
        UpdatesBack(vs, f.table, []);
        FindBack(v, f, true, EncodeUpdates(vs));
        assert EncodeUpdates(vs) + [] == EncodeUpdates(vs);
        NormalFieldNum(f.table);
      case Inserting(t, vs) =>
        UpdatesBack(vs, t, []);
        TableBack(t, false, EncodeUpdates(vs));
        assert EncodeUpdates(vs) + [] == EncodeUpdates(vs);
        NormalFieldNum(t);
    }
  }

  lemma NormalFieldNum(t: Table)
    ensures Normal(t).fieldNum == t.fieldNum && forall f: Find | f.table == t :: NormalFind(f).table == Normal(t)
  {
  }

  // ---- different requests have different bytes

  lemma StringOnce(a: CString, b: CString, x: seq<Octet>, y: seq<Octet>)
    requires Fits(a) && Fits(b) && EncodeString(a) + x == EncodeString(b) + y
    ensures a == b && x == y
  {
    hide EncodeString, ReadString;
    StringBack(a, x);
    StringBack(b, y);
  }

  lemma ArrayOnce(a: seq<CString>, b: seq<CString>, x: seq<Octet>, y: seq<Octet>)
    requires AllFit(a) && AllFit(b) && EncodeArray(a) + x == EncodeArray(b) + y
    ensures a == b && x == y
  {
    hide EncodeStrings, ReadStrings, Be32, ReadU32;
    var s, t := EncodeStrings(a) + x, EncodeStrings(b) + y;
    assert EncodeArray(a) + x == Be32(|a|) + s && EncodeArray(b) + y == Be32(|b|) + t;
    U32Back(|a|, s);
    U32Back(|b|, t);
    StringsBack(a, x);
    StringsBack(b, y);
  }

  lemma TableLayout(t: Table, rest: seq<Octet>)
    requires TableFits(t)
    ensures EncodeTable(t) + rest == EncodeString(t.db) +
            (EncodeString(t.table) + (EncodeString(t.index) + (EncodeArray(t.fields) + rest)))
  {
    hide EncodeString, EncodeArray;
    var a, b, c, d := EncodeString(t.db), EncodeString(t.table), EncodeString(t.index), EncodeArray(t.fields);
    assert c + d + rest == c + (d + rest);
    assert b + (c + d) + rest == b + (c + d + rest);
  }

  lemma TableOnce(a: Table, b: Table, x: seq<Octet>, y: seq<Octet>)
    requires TableFits(a) && TableFits(b) && EncodeTable(a) + x == EncodeTable(b) + y
    ensures a == b && x == y
  {
    hide EncodeString, EncodeArray, EncodeTable, Fits, AllFit;
    TableLayout(a, x);
    TableLayout(b, y);
    var a3, b3 := EncodeArray(a.fields) + x, EncodeArray(b.fields) + y;
    var a2, b2 := EncodeString(a.index) + a3, EncodeString(b.index) + b3;
    var a1, b1 := EncodeString(a.table) + a2, EncodeString(b.table) + b2;
    StringOnce(a.db, b.db, a1, b1);
    StringOnce(a.table, b.table, a2, b2);
    StringOnce(a.index, b.index, a3, b3);
    ArrayOnce(a.fields, b.fields, x, y);
  }

  lemma {:induction false} KeysOnce(a: seq<seq<CString>>, b: seq<seq<CString>>, x: seq<Octet>, y: seq<Octet>)
    requires |a| == |b| && (forall i | 0 <= i < |a| :: AllFit(a[i])) && (forall i | 0 <= i < |b| :: AllFit(b[i]))
    requires EncodeKeys(a) + x == EncodeKeys(b) + y
    ensures a == b && x == y
  {
    hide EncodeArray, AllFit;
    if a == [] {
      assert EncodeKeys(a) + x == x && EncodeKeys(b) + y == y;
    } else {
      var s, t := EncodeKeys(a[1..]) + x, EncodeKeys(b[1..]) + y;
      assert EncodeKeys(a) + x == EncodeArray(a[0]) + s && EncodeKeys(b) + y == EncodeArray(b[0]) + t;
      ArrayOnce(a[0], b[0], s, t);
      KeysOnce(a[1..], b[1..], x, y);
      assert a == [a[0]] + a[1..] && b == [b[0]] + b[1..];
    }
  }

  lemma FilterOnce(a: Filter, b: Filter, x: seq<Octet>, y: seq<Octet>)
    requires FilterFits(a) && FilterFits(b) && EncodeFilter(a) + x == EncodeFilter(b) + y
    ensures a == b && x == y
  {
    hide EncodeString;
    var a2, b2 := EncodeString(a.value) + x, EncodeString(b.value) + y;
    var a1, b1 := [a.flag] + a2, [b.flag] + b2;
    assert EncodeFilter(a) + x == EncodeString(a.field) + a1 && EncodeFilter(b) + y == EncodeString(b.field) + b1;
    StringOnce(a.field, b.field, a1, b1);
    assert a1[0] == b1[0] && a1[1..] == a2 && b1[1..] == b2;
    StringOnce(a.value, b.value, x, y);
  }

  lemma {:induction false} FiltersOnce(a: seq<Filter>, b: seq<Filter>, x: seq<Octet>, y: seq<Octet>)
    requires |a| == |b| && (forall i | 0 <= i < |a| :: FilterFits(a[i])) &&
             (forall i | 0 <= i < |b| :: FilterFits(b[i]))
    requires EncodeFilters(a) + x == EncodeFilters(b) + y
    ensures a == b && x == y
  {
    hide EncodeFilter, FilterFits;
    if a == [] {
      assert EncodeFilters(a) + x == x && EncodeFilters(b) + y == y;
    } else {
      var s, t := EncodeFilters(a[1..]) + x, EncodeFilters(b[1..]) + y;
      assert EncodeFilters(a) + x == EncodeFilter(a[0]) + s && EncodeFilters(b) + y == EncodeFilter(b[0]) + t;
      FilterOnce(a[0], b[0], s, t);
      FiltersOnce(a[1..], b[1..], x, y);
      assert a == [a[0]] + a[1..] && b == [b[0]] + b[1..];
    }
  }

  lemma ValueOnce(a: Value, b: Value, x: seq<Octet>, y: seq<Octet>)
    requires ValueFits(a) && ValueFits(b) && EncodeValue(a) + x == EncodeValue(b) + y
    ensures a == b && x == y
  {
    hide EncodeString;
    var a1, b1 := EncodeString(a.value) + x, EncodeString(b.value) + y;
    var s, t := [a.flag] + a1, [b.flag] + b1;
    assert EncodeValue(a) + x == s && EncodeValue(b) + y == t;
    assert s[0] == t[0] && s[1..] == a1 && t[1..] == b1;
    StringOnce(a.value, b.value, x, y);
  }

  lemma {:induction false} ValuesOnce(a: seq<Value>, b: seq<Value>)
    requires |a| == |b| && (forall i | 0 <= i < |a| :: ValueFits(a[i])) && (forall i | 0 <= i < |b| :: ValueFits(b[i]))
    requires EncodeValues(a) == EncodeValues(b)
    ensures a == b
  {
    hide EncodeValue, ValueFits;
    if a != [] {
      ValueOnce(a[0], b[0], EncodeValues(a[1..]), EncodeValues(b[1..]));
      ValuesOnce(a[1..], b[1..]);
      assert a == [a[0]] + a[1..] && b == [b[0]] + b[1..];
    }
  }

  lemma UpdatesOnce(a: seq<Value>, b: seq<Value>)
    requires ValuesFit(a) && ValuesFit(b) && EncodeUpdates(a) == EncodeUpdates(b)
    ensures a == b
  {
    hide EncodeValues, Be32, ReadU32;
    U32Back(|a|, EncodeValues(a));
    U32Back(|b|, EncodeValues(b));
    ValuesOnce(a, b);
  }

  lemma FindOnce(a: Find, b: Find, x: seq<Octet>, y: seq<Octet>)
    requires FindFits(a) && FindFits(b) && EncodeFind(a) + x == EncodeFind(b) + y
    ensures a == b && x == y
  {
    hide EncodeTable, EncodeKeys, EncodeFilters, Be32, ReadU32, EncodeFind, TableFits, AllFit, FilterFits;
    FindLayout(a, x);
    FindLayout(b, y);
    var a7, b7 := EncodeFilters(a.filters) + x, EncodeFilters(b.filters) + y;
    var a6, b6 := Be32(|a.filters|) + a7, Be32(|b.filters|) + b7;
    var a5, b5 := Be32(a.limit) + a6, Be32(b.limit) + b6;
    var a4, b4 := Be32(a.start) + a5, Be32(b.start) + b5;
    var a3, b3 := [a.flag] + a4, [b.flag] + b4;
    var a2, b2 := EncodeKeys(a.keys) + a3, EncodeKeys(b.keys) + b3;
    TableOnce(a.table, b.table, Be32(|a.keys|) + a2, Be32(|b.keys|) + b2);
    WordOnce(|a.keys|, |b.keys|, a2, b2);
    KeysOnce(a.keys, b.keys, a3, b3);
    assert a3[0] == b3[0] && a3[1..] == a4 && b3[1..] == b4;
    WordOnce(a.start, b.start, a5, b5);
    WordOnce(a.limit, b.limit, a6, b6);
    WordOnce(|a.filters|, |b.filters|, a7, b7);
    FiltersOnce(a.filters, b.filters, x, y);
  }

  lemma WordOnce(a: nat, b: nat, x: seq<Octet>, y: seq<Octet>)
    requires a < U32 && b < U32 && Be32(a) + x == Be32(b) + y
    ensures a == b && x == y
  {
    hide Be32, ReadU32;
    U32Back(a, x);
    U32Back(b, y);
  }

  /** The bytes of a request and its kind, which the packet header tells, say what the request is. */
  lemma EncodeOnce(a: Request, b: Request)
    requires RequestFits(a) && RequestFits(b) && KindOf(a) == KindOf(b)
    requires Encode(a) == Encode(b)
    ensures a == b
  {
    hide EncodeFind, EncodeTable, EncodeUpdates, FindFits, TableFits, ValuesFit;
    match a {
      case Finding(_, f) =>
        assert EncodeFind(f) + [] == EncodeFind(f) && EncodeFind(b.find) + [] == EncodeFind(b.find);
        FindOnce(f, b.find, [], []);
      case Updating(f, vs) =>
        FindOnce(f, b.find, EncodeUpdates(vs), EncodeUpdates(b.values));
        UpdatesOnce(vs, b.values);
      case Inserting(t, vs) =>
        TableOnce(t, b.table, EncodeUpdates(vs), EncodeUpdates(b.values));
        UpdatesOnce(vs, b.values);
    }
  }

  // ---- the two decoders

  function KeyCount(kind: Kind, s: seq<Octet>): nat {
    if kind.Insert? then 0 else
      match ReadTable(s, kind.Get? || kind.Update?)
      case Ok(_, s1) => (match ReadU32(s1) case Ok(n, _) => n case _ => 0)
      case _ => 0
  }

  lemma {:induction false} ReadKeysCount(n: nat, s: seq<Octet>)
    ensures ReadKeys(n, s).Ok? ==> |ReadKeys(n, s).value| == n
  {
    if n > 0 && ReadKeys(n, s).Ok? {
      var (parts, t) := ReadU32(s).Extract();
      ReadKeysCount(n - 1, ReadParts(0, parts, t).rest);
    }
  }

  /** On every input with at most ten keys, well-formed or not, the two decoders agree. */
  lemma VersionsAgree(kind: Kind, s: seq<Octet>, alloc: bool)
    requires KeyCount(kind, s) <= MAX_KEYS
    ensures Decode(V1, kind, s) == Decode(V2(alloc), kind, s)
  {
    hide ReadTable, ReadU32, ReadKeys, ReadUpdates, ReadU8, ReadFilters;
    if !kind.Insert? {
      var need := kind.Get? || kind.Update?;
      if ReadTable(s, need).Ok? {
        var s1 := ReadTable(s, need).rest;
        if ReadU32(s1).Ok? { ReadKeysCount(ReadU32(s1).value, ReadU32(s1).rest); }
      }
      assert ReadFind(V1, s, need) == ReadFind(V2(alloc), s, need);
    }
  }
}
