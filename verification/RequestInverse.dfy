/** The decoders accept nothing but encoded requests: whatever bytes they take, the bytes are the encoding
    of one request, and that request meets the demands of the server. */
module RequestInverse {
  import opened Wire
  import opened RequestCodec

  lemma WordIs(s: seq<Octet>)
    requires ReadU32(s).Ok?
    ensures var r := ReadU32(s); r.value < U32 && s == Be32(r.value) + r.rest
  {
    Be32Onto(s[..4]);
    hide Be32, FromBe32;
    assert s == s[..4] + s[4..];
  }

  lemma StringIs(s: seq<Octet>)
    requires ReadString(s).Ok?
    ensures var r := ReadString(s); Fits(r.value) && s == EncodeString(r.value) + r.rest
  {
    hide Be32, ReadU32;
    WordIs(s);
    var (n, t) := ReadU32(s).Extract();
    assert t == t[..n] + t[n..];
    assert Be32(n) + (t[..n] + t[n..]) == Be32(n) + t[..n] + t[n..];
  }

  lemma {:induction false} StringsAre(n: nat, s: seq<Octet>)
    requires ReadStrings(n, s).Ok?
    ensures var r := ReadStrings(n, s);
            && |r.value| == n && (forall i | 0 <= i < n :: Fits(r.value[i]))
            && s == EncodeStrings(r.value) + r.rest
  {
    hide EncodeString, ReadString, Fits;
    if n > 0 {
      StringIs(s);
      var (x, t) := ReadString(s).Extract();
      StringsAre(n - 1, t);
      StringsCons(x, ReadStrings(n - 1, t).value, ReadStrings(n - 1, t).rest);
    }
  }

  lemma {:induction false} StringsCons(x: CString, xs: seq<CString>, rest: seq<Octet>)
    requires Fits(x) && forall i | 0 <= i < |xs| :: Fits(xs[i])
    ensures EncodeStrings([x] + xs) + rest == EncodeString(x) + (EncodeStrings(xs) + rest)
  {
    hide EncodeString, Fits;
    assert ([x] + xs)[0] == x && ([x] + xs)[1..] == xs;
  }

  /** A table that was read, as it was sent. */
  lemma {:induction false} TableIs(s: seq<Octet>, needField: bool) returns (t: Table)
    requires ReadTable(s, needField).Ok?
    ensures var r := ReadTable(s, needField);
            TableOk(t, needField) && TableFits(t) && r.value == Normal(t) && s == EncodeTable(t) + r.rest
  {
    hide EncodeString, ReadString, EncodeStrings, ReadStrings, ReadU32, Be32, Fits, Stored;
    StringIs(s);
    var (db, s1) := ReadString(s).Extract();
    StringIs(s1);
    var (table, s2) := ReadString(s1).Extract();
    StringIs(s2);
    var (index, s3) := ReadString(s2).Extract();
    WordIs(s3);
    var (n, s4) := ReadU32(s3).Extract();
    StringsAre(n, s4);
    var (fields, s5) := ReadStrings(n, s4).Extract();
    t := Table(db, table, index, n, fields);
    hide ReadTable;
    TableLayout(t, s5);
    assert EncodeArray(fields) + s5 == Be32(n) + (EncodeStrings(fields) + s5);
  }

  lemma {:induction false} PartsAre(j: nat, n: nat, s: seq<Octet>)
    requires j <= n && ReadParts(j, n, s).Ok?
    ensures var r := ReadParts(j, n, s);
            && |r.value| == n - j && (forall i | 0 <= i < |r.value| :: Fits(r.value[i]))
            && s == EncodeStrings(r.value) + r.rest && (j < n ==> n <= MAX_KEYS)
    decreases n - j
  {
    hide EncodeString, ReadString, Fits;
    if j < n {
      PartRead(j, n, s);
      StringIs(s);
      var (x, t) := ReadString(s).Extract();
      PartsAre(j + 1, n, t);
      var r := ReadParts(j + 1, n, t);
      StringsCons(x, r.value, r.rest);
    }
  }

  lemma PartRead(j: nat, n: nat, s: seq<Octet>)
    requires j < n && ReadParts(j, n, s).Ok?
    ensures j < MAX_KEYS && ReadString(s).Ok? && ReadParts(j + 1, n, ReadString(s).rest).Ok?
    ensures ReadParts(j, n, s) ==
            var (x, t) := ReadString(s).Extract(); var r := ReadParts(j + 1, n, t); Ok([x] + r.value, r.rest)
  {
  }

  lemma {:induction false} KeysAre(n: nat, s: seq<Octet>)
    requires ReadKeys(n, s).Ok?
    ensures var r := ReadKeys(n, s);
            && |r.value| == n && (forall i | 0 <= i < n :: AllFit(r.value[i]) && |r.value[i]| <= MAX_KEYS)
            && s == EncodeKeys(r.value) + r.rest
  {
    hide ReadU32, ReadParts, EncodeStrings, Be32;
    if n > 0 {
      WordIs(s);
      var (parts, t) := ReadU32(s).Extract();
      PartsAre(0, parts, t);
      var (key, u) := ReadParts(0, parts, t).Extract();
      KeysAre(n - 1, u);
      var r := ReadKeys(n - 1, u);
      hide ReadKeys;
      KeysCons(key, r.value, r.rest);
      assert Be32(parts) + (EncodeStrings(key) + u) == Be32(parts) + EncodeStrings(key) + u;
    }
  }

  lemma {:induction false} KeysCons(key: seq<CString>, keys: seq<seq<CString>>, rest: seq<Octet>)
    requires AllFit(key) && forall i | 0 <= i < |keys| :: AllFit(keys[i])
    ensures EncodeKeys([key] + keys) + rest == EncodeArray(key) + (EncodeKeys(keys) + rest)
  {
    hide EncodeArray, AllFit;
    assert ([key] + keys)[0] == key && ([key] + keys)[1..] == keys;
  }

  lemma {:induction false} FiltersAre(i: nat, n: nat, s: seq<Octet>)
    requires i <= n && ReadFilters(i, n, s).Ok?
    ensures var r := ReadFilters(i, n, s);
            && |r.value| == n - i && (forall k | 0 <= k < |r.value| :: FilterFits(r.value[k]))
            && FiltersGood(i, r.value) && s == EncodeFilters(r.value) + r.rest
    decreases n - i
  {
    hide EncodeString, ReadString, Fits, FiltersGood;
    if i == n {
      NoFilters(i);
    } else {
      FilterRead(i, n, s);
      var (field, s1) := ReadString(s).Extract();
      var (flag, s2) := ReadU8(s1).Extract();
      var (value, s3) := ReadString(s2).Extract();
      StringIs(s);
      assert s1 == [flag] + s2;
      StringIs(s2);
      FiltersAre(i + 1, n, s3);
      var r := ReadFilters(i + 1, n, s3);
      var f := Filter(field, flag, value);
      hide ReadFilters, ReadU8;
      FiltersGoodCons(i, [f] + r.value);
      assert ([f] + r.value)[1..] == r.value;
      FiltersCons(f, r.value, r.rest);
      assert EncodeFilter(f) + s3 == EncodeString(field) + ([flag] + (EncodeString(value) + s3));
    }
  }

  lemma FilterRead(i: nat, n: nat, s: seq<Octet>)
    requires i < n && ReadFilters(i, n, s).Ok?
    ensures ReadString(s).Ok? && ReadU8(ReadString(s).rest).Ok?
    ensures var (field, s1) := ReadString(s).Extract();
            var (flag, s2) := ReadU8(s1).Extract();
            && (i < MAX_FIELDS ==> flag < FILTER_END) && ReadString(s2).Ok?
            && var (value, s3) := ReadString(s2).Extract();
               && ReadFilters(i + 1, n, s3).Ok?
               && var r := ReadFilters(i + 1, n, s3);
                  ReadFilters(i, n, s) == Ok([Filter(field, flag, value)] + r.value, r.rest)
  {
    hide ReadString, ReadU8;
  }

  lemma {:induction false} FiltersCons(f: Filter, fs: seq<Filter>, rest: seq<Octet>)
    requires FilterFits(f) && forall i | 0 <= i < |fs| :: FilterFits(fs[i])
    ensures EncodeFilters([f] + fs) + rest == EncodeFilter(f) + (EncodeFilters(fs) + rest)
  {
    hide EncodeFilter, FilterFits;
    assert ([f] + fs)[0] == f && ([f] + fs)[1..] == fs;
  }

  lemma {:induction false} ValuesAre(i: nat, n: nat, s: seq<Octet>)
    requires i <= n && ReadValues(i, n, s).Ok?
    ensures var r := ReadValues(i, n, s);
            && |r.value| == n - i && (forall k | 0 <= k < |r.value| :: ValueFits(r.value[k]))
            && ValuesGood(i, r.value) && s == EncodeValues(r.value) + r.rest
    decreases n - i
  {
    hide EncodeString, ReadString, Fits, ValuesGood;
    if i == n {
      NoFilters(i);
    } else {
      ValueRead(i, n, s);
      var (flag, s1) := ReadU8(s).Extract();
      var (value, s2) := ReadString(s1).Extract();
      assert s == [flag] + s1;
      StringIs(s1);
      ValuesAre(i + 1, n, s2);
      var r := ReadValues(i + 1, n, s2);
      var v := Value(flag, value);
      hide ReadValues, ReadU8;
      ValuesGoodCons(i, [v] + r.value);
      assert ([v] + r.value)[1..] == r.value;
      ValuesCons(v, r.value, r.rest);
      assert EncodeValue(v) + s2 == [flag] + (EncodeString(value) + s2);
    }
  }

  lemma ValueRead(i: nat, n: nat, s: seq<Octet>)
    requires i < n && ReadValues(i, n, s).Ok?
    ensures ReadU8(s).Ok?
    ensures var (flag, s1) := ReadU8(s).Extract();
            && (i < MAX_FIELDS ==> flag < UPDATE_END) && ReadString(s1).Ok?
            && var (value, s2) := ReadString(s1).Extract();
               && ReadValues(i + 1, n, s2).Ok?
               && var r := ReadValues(i + 1, n, s2);
                  ReadValues(i, n, s) == Ok([Value(flag, value)] + r.value, r.rest)
  {
    hide ReadString, ReadU8;
  }

  lemma {:induction false} ValuesCons(v: Value, vs: seq<Value>, rest: seq<Octet>)
    requires ValueFits(v) && forall i | 0 <= i < |vs| :: ValueFits(vs[i])
    ensures EncodeValues([v] + vs) + rest == EncodeValue(v) + (EncodeValues(vs) + rest)
  {
    hide EncodeValue, ValueFits;
    assert ([v] + vs)[0] == v && ([v] + vs)[1..] == vs;
  }

  /** The values of an update or insert, as they were sent. */
  lemma {:induction false} UpdatesAre(fieldNum: nat, s: seq<Octet>) returns (vs: seq<Value>)
    requires ReadUpdates(fieldNum, s).Ok?
    ensures var r := ReadUpdates(fieldNum, s);
            && ValuesFit(vs) && |vs| == fieldNum && r.value == Stored(vs, MAX_FIELDS) && s == EncodeUpdates(vs) + r.rest
  {
    hide ReadU32, ReadValues, Be32, EncodeValues, ValuesGood, Stored;
    WordIs(s);
    var (n, s1) := ReadU32(s).Extract();
    ValuesAre(0, n, s1);
    vs := ReadValues(0, n, s1).value;
    var rest := ReadValues(0, n, s1).rest;
    assert Be32(n) + (EncodeValues(vs) + rest) == Be32(n) + EncodeValues(vs) + rest;
  }

  /** A search that was read, as it was sent. */
  lemma {:induction false} FindIs(v: Version, s: seq<Octet>, needField: bool) returns (f: Find)
    requires ReadFind(v, s, needField).Ok?
    ensures var r := ReadFind(v, s, needField);
            FindFits(f) && r.value == NormalFind(f) && s == EncodeFind(f) + r.rest
  {
    hide ReadTable, ReadU32, ReadKeys, ReadTail, EncodeTable, EncodeKeys, EncodeFilters, Be32, Normal, Stored, TableOk;
    var t := TableIs(s, needField);
    var (_, s1) := ReadTable(s, needField).Extract();
    WordIs(s1);
    var (n, s2) := ReadU32(s1).Extract();
    KeysAre(n, s2);
    var (keys, s3) := ReadKeys(n, s2).Extract();
    f := TailIs(v, t, keys, s3);
    FindLayout(f, ReadTail(v, Normal(t), keys, s3).rest);
  }

  lemma {:induction false} TailIs(v: Version, t: Table, keys: seq<seq<CString>>, s: seq<Octet>) returns (f: Find)
    requires ReadTail(v, Normal(t), keys, s).Ok? && TableFits(t) && |keys| < U32
    requires forall i | 0 <= i < |keys| :: AllFit(keys[i])
    ensures var r := ReadTail(v, Normal(t), keys, s);
            && FindFits(f) && f.table == t && f.keys == keys && r.value == NormalFind(f)
            && s == [f.flag] +
                 (Be32(f.start) + (Be32(f.limit) + (Be32(|f.filters|) + (EncodeFilters(f.filters) + r.rest))))
  {
    hide ReadU32, ReadFilters, EncodeFilters, Be32, Normal, Stored, TableFits, AllFit, CheckFind;
    CheckKeeps(v, keys);
    var (flag, s4) := ReadU8(s).Extract();
    assert s == [flag] + s4;
    WordIs(s4);
    var (start, s5) := ReadU32(s4).Extract();
    WordIs(s5);
    var (limit, s6) := ReadU32(s5).Extract();
    WordIs(s6);
    var (m, s8) := ReadU32(s6).Extract();
    FiltersAre(0, m, s8);
    var filters := ReadFilters(0, m, s8).value;
    f := Find(t, keys, flag, start, limit, filters);
  }

  /** The checks consume nothing. */
  lemma CheckKeeps(v: Version, keys: seq<seq<CString>>)
    ensures forall flag: nat, s: seq<Octet> | CheckFind(v, keys, flag, s).Ok? :: CheckFind(v, keys, flag, s).rest == s
  {
  }

  /** Whatever a decoder accepts is the encoding of a request, and what it returns is what there is to
      keep of that request. */
  lemma {:induction false} DecodedIs(v: Version, kind: Kind, s: seq<Octet>) returns (r: Request)
    requires Decode(v, kind, s).Ok?
    ensures RequestFits(r) && KindOf(r) == kind && s == Encode(r) && Decode(v, kind, s).value == NormalRequest(r)
  {
    hide ReadFind, ReadTable, ReadUpdates, EncodeFind, EncodeTable, EncodeUpdates, Normal, Stored, NormalFind,
         FindFits, TableFits, ValuesFit;
    match kind {
      case Get =>
        var f := FindIs(v, s, true);
        r := Finding(Get, f);
        assert EncodeFind(f) + [] == EncodeFind(f);
      case Count =>
        var f := FindIs(v, s, false);
        r := Finding(Count, f);
        assert EncodeFind(f) + [] == EncodeFind(f);
      case Delete =>
        var f := FindIs(v, s, false);
        r := Finding(Delete, f);
        assert EncodeFind(f) + [] == EncodeFind(f);
      case Update =>
        var f := FindIs(v, s, true);
        NormalFieldNum(f.table);
        var vs := UpdatesAre(f.table.fieldNum, ReadFind(v, s, true).rest);
        r := Updating(f, vs);
        assert EncodeUpdates(vs) + [] == EncodeUpdates(vs);
      case Insert =>
        var t := TableIs(s, false);
        NormalFieldNum(t);
        var vs := UpdatesAre(t.fieldNum, ReadTable(s, false).rest);
        r := Inserting(t, vs);
        assert EncodeUpdates(vs) + [] == EncodeUpdates(vs);
    }
  }

  /** The bytes that a decoder accepts are exactly the encodings of the requests that meet the demands. */
  lemma {:induction false} AcceptsExactly(v: Version, kind: Kind, s: seq<Octet>)
    ensures Decode(v, kind, s).Ok? <==>
              exists r: Request :: RequestFits(r) && KindOf(r) == kind && Encode(r) == s && Demands(v, r)
  {
    hide Decode, Encode, RequestFits, Demands, NormalRequest, FullVerdict;
    if Decode(v, kind, s).Ok? {
      var r := DecodedIs(v, kind, s);
      RoundTrip(v, r);
      AcceptedMeets(v, r);
    }
    forall r: Request | RequestFits(r) && KindOf(r) == kind && Encode(r) == s && Demands(v, r)
      ensures Decode(v, kind, s).Ok?
    {
      RoundTrip(v, r);
      AcceptedMeets(v, r);
    }
  }
}
