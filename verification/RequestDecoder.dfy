/** The decoders as they run: a position that moves over the packet, and arrays filled in loops. */
module RequestDecoder {
  import opened Wire
  import opened RequestCodec

  datatype Got<+T> = Val(value: T) | Err(error: Error) | Lost

  function Failed<T, U>(g: Got<T>): Got<U>
    requires !g.Val?
  {
    if g.Lost? then Lost else Err(g.error)
  }

  /** The outcome of a method that started before some bytes, against what those bytes decode to. */
  ghost predicate Matches<T>(g: Got<T>, spec: Result<T>, rest: seq<Octet>) {
    match spec
    case Ok(v, t) => g == Val(v) && rest == t
    case Fail(e) => g == Err(e)
    case Wild => g == Lost
  }

  ghost function Cons<T>(xs: seq<T>, r: Result<seq<T>>): Result<seq<T>> {
    match r case Ok(ys, t) => Ok(xs + ys, t) case _ => r
  }

  lemma ConsNone<T>(r: Result<seq<T>>)
    ensures Cons([], r) == r
  {
    if r.Ok? { assert [] + r.value == r.value; }
  }

  lemma ConsOn<T>(xs: seq<T>, x: T, r: Result<seq<T>>)
    ensures Cons(xs, Cons([x], r)) == Cons(xs + [x], r)
  {
    if r.Ok? { assert xs + ([x] + r.value) == xs + [x] + r.value; }
  }

  lemma StoredNext<T>(xs: seq<T>, x: T, limit: nat)
    ensures Stored(xs + [x], limit) == if |xs| < limit then Stored(xs, limit) + [x] else Stored(xs, limit)
  {
  }

  class Reader {
    const data: seq<Octet>
    var pos: nat

    constructor (data: seq<Octet>)
      ensures Valid() && this.data == data && Rest() == data
    {
      this.data := data;
      pos := 0;
    }

    predicate Valid()
      reads this
    {
      pos <= |data|
    }

    function Rest(): seq<Octet>
      requires Valid()
      reads this
    {
      data[pos..]
    }

    /** `read_uint8_ref` */
    method U8() returns (g: Got<nat>)
      requires Valid()
      modifies this`pos
      ensures Valid() && Matches(g, ReadU8(old(Rest())), Rest())
    {
      if |data| - pos < 1 { return Err(Bad); }
      g := Val(data[pos]);
      pos := pos + 1;
    }

    /** `read_uint32_ref` */
    method U32() returns (g: Got<nat>)
      requires Valid()
      modifies this`pos
      ensures Valid() && Matches(g, ReadU32(old(Rest())), Rest())
    {
      hide FromBe32;
      if |data| - pos < 4 { return Err(Bad); }
      assert data[pos..pos + 4] == Rest()[..4];
      g := Val(FromBe32(data[pos..pos + 4]));
      pos := pos + 4;
    }

    /** `read_uint32_ref`, then `read_str_ref` */
    method String() returns (g: Got<CString>)
      requires Valid()
      modifies this`pos
      ensures Valid() && Matches(g, ReadString(old(Rest())), Rest())
    {
      hide ReadU32;
      var n := U32();
      if !n.Val? { return Failed(n); }
      ghost var t := Rest();
      if |data| - pos < n.value { return Err(Bad); }
      if n.value != 0 && data[pos + n.value - 1] != 0 {
        assert t[n.value - 1] == data[pos + n.value - 1];
        return Err(Bad);
      }
      assert n.value > 0 ==> t[n.value - 1] == data[pos + n.value - 1];
      assert data[pos..pos + n.value] == t[..n.value];
      var x: CString := data[pos..pos + n.value];
      pos := pos + n.value;
      g := Val(x);
    }

    method Strings(n: nat) returns (g: Got<seq<CString>>)
      requires Valid()
      modifies this`pos
      ensures Valid()
      ensures match ReadStrings(n, old(Rest()))
              case Ok(xs, t) => g == Val(Stored(xs, MAX_FIELDS)) && Rest() == t
              case r => Matches(g, r, Rest())
    {
      hide ReadString;
      var stored: seq<CString> := [];
      ghost var all: seq<CString> := [];
      ConsNone(ReadStrings(n, Rest()));
      var i := 0;
      while i < n
        invariant i <= n && Valid() && |all| == i && stored == Stored(all, MAX_FIELDS)
        invariant ReadStrings(n, old(Rest())) == Cons(all, ReadStrings(n - i, Rest()))
      {
        var x := String();
        if !x.Val? { return Failed(x); }
        ConsOn(all, x.value, ReadStrings(n - i - 1, Rest()));
        StoredNext(all, x.value, MAX_FIELDS);
        if i < MAX_FIELDS { stored := stored + [x.value]; }
        all := all + [x.value];
        i := i + 1;
      }
      assert all + [] == all;
      g := Val(stored);
    }

    /** `_decode_to_table_info` */
    method ReadTableInfo(needField: bool) returns (g: Got<Table>)
      requires Valid()
      modifies this`pos
      ensures Valid() && Matches(g, ReadTable(old(Rest()), needField), Rest())
    {
      hide ReadString, ReadU32, ReadStrings;
      var db := String();
      if !db.Val? { return Failed(db); }
      var table := String();
      if !table.Val? { return Failed(table); }
      var index := String();
      if !index.Val? { return Failed(index); }
      var n := U32();
      if !n.Val? { return Failed(n); }
      var fields := Strings(n.value);
      if !fields.Val? { return Failed(fields); }
      if db.value == [] || table.value == [] || (needField && n.value == 0) { return Err(Bad); }
      var used: CString := if index.value == [] then PRIMARY else index.value;
      g := Val(Table(db.value, table.value, used, n.value, fields.value));
    }

    /** The parts of one key. */
    method Parts(n: nat) returns (g: Got<seq<CString>>)
      requires Valid()
      modifies this`pos
      ensures Valid() && Matches(g, ReadParts(0, n, old(Rest())), Rest())
    {
      hide ReadString;
      var parts: seq<CString> := [];
      ConsNone(ReadParts(0, n, Rest()));
      var j := 0;
      while j < n
        invariant j <= n && Valid()
        invariant ReadParts(0, n, old(Rest())) == Cons(parts, ReadParts(j, n, Rest()))
      {
        if j >= MAX_KEYS && |data| - pos >= 4 { return Lost; }
        var x := String();
        if !x.Val? { return Failed(x); }
        ConsOn(parts, x.value, ReadParts(j + 1, n, Rest()));
        parts := parts + [x.value];
        j := j + 1;
      }
      assert parts + [] == parts;
      g := Val(parts);
    }

    method Keys(n: nat, room: nat) returns (g: Got<seq<seq<CString>>>)
      requires Valid()
      modifies this`pos
      ensures Valid()
      ensures match ReadKeys(n, old(Rest()))
              case Ok(xs, t) => g == Val(Stored(xs, room)) && Rest() == t
              case r => Matches(g, r, Rest())
    {
      hide ReadU32, ReadParts;
      var stored: seq<seq<CString>> := [];
      ghost var all: seq<seq<CString>> := [];
      ConsNone(ReadKeys(n, Rest()));
      var i := 0;
      while i < n
        invariant i <= n && Valid() && |all| == i && stored == Stored(all, room)
        invariant ReadKeys(n, old(Rest())) == Cons(all, ReadKeys(n - i, Rest()))
      {
        var parts := U32();
        if !parts.Val? { return Failed(parts); }
        var key := Parts(parts.value);
        if !key.Val? { return Failed(key); }
        ConsOn(all, key.value, ReadKeys(n - i - 1, Rest()));
        StoredNext(all, key.value, room);
        if i < room { stored := stored + [key.value]; }
        all := all + [key.value];
        i := i + 1;
      }
      assert all + [] == all;
      g := Val(stored);
    }

    /** `_decode_to_filter` */
    method Filters(n: nat) returns (g: Got<seq<Filter>>)
      requires Valid()
      modifies this`pos
      ensures Valid()
      ensures match ReadFilters(0, n, old(Rest()))
              case Ok(xs, t) => g == Val(Stored(xs, MAX_FIELDS)) && Rest() == t
              case r => Matches(g, r, Rest())
    {
      hide ReadString, ReadU8;
      var stored: seq<Filter> := [];
      ghost var all: seq<Filter> := [];
      ConsNone(ReadFilters(0, n, Rest()));
      var i := 0;
      while i < n
        invariant i <= n && Valid() && |all| == i && stored == Stored(all, MAX_FIELDS)
        invariant ReadFilters(0, n, old(Rest())) == Cons(all, ReadFilters(i, n, Rest()))
      {
        var field := String();
        if !field.Val? { return Failed(field); }
        var flag := U8();
        if !flag.Val? { return Failed(flag); }
        if i < MAX_FIELDS && flag.value >= FILTER_END { return Err(Bad); }
        var value := String();
        if !value.Val? { return Failed(value); }
        var f := Filter(field.value, flag.value, value.value);
        ConsOn(all, f, ReadFilters(i + 1, n, Rest()));
        StoredNext(all, f, MAX_FIELDS);
        if i < MAX_FIELDS { stored := stored + [f]; }
        all := all + [f];
        i := i + 1;
      }
      assert all + [] == all;
      g := Val(stored);
    }

    /** The values of an update or insert. */
    method Updates(fieldNum: nat) returns (g: Got<seq<Value>>)
      requires Valid()
      modifies this`pos
      ensures Valid() && Matches(g, ReadUpdates(fieldNum, old(Rest())), Rest())
    {
      hide ReadString, ReadU8, ReadU32;
      var n := U32();
      if !n.Val? { return Failed(n); }
      if n.value != fieldNum { return Err(Bad); }
      ghost var start := Rest();
      var stored: seq<Value> := [];
      ghost var all: seq<Value> := [];
      ConsNone(ReadValues(0, n.value, Rest()));
      var i := 0;
      while i < n.value
        invariant i <= n.value && Valid() && |all| == i && stored == Stored(all, MAX_FIELDS)
        invariant ReadValues(0, n.value, start) == Cons(all, ReadValues(i, n.value, Rest()))
      {
        var flag := U8();
        if !flag.Val? { return Failed(flag); }
        if i < MAX_FIELDS && flag.value >= UPDATE_END { return Err(Bad); }
        var value := String();
        if !value.Val? { return Failed(value); }
        var v := Value(flag.value, value.value);
        ConsOn(all, v, ReadValues(i + 1, n.value, Rest()));
        StoredNext(all, v, MAX_FIELDS);
        if i < MAX_FIELDS { stored := stored + [v]; }
        all := all + [v];
        i := i + 1;
      }
      assert all + [] == all;
      g := Val(stored);
    }

    /** The checks after `n` keys of which `stored` were kept. */
    method CheckKeys(v: Version, n: nat, flag: nat, stored: seq<seq<CString>>, ghost keys: seq<seq<CString>>)
        returns (g: Got<()>)
      requires Valid() && |keys| == n && stored == Stored(keys, Room(v, n))
      ensures Matches(g, CheckFind(v, keys, flag, Rest()), Rest())
    {
      hide Room;
      var room := Room(v, n);
      if v.V2? && n > room && flag == FIND_IN { return Err(OutOfIn); }
      if n < 2 && flag == FIND_BETWEEN { return Err(OutOfIn); }
      if flag >= FIND_END || n == 0 { return Err(Bad); }
      var i := 0;
      while i < n
        invariant i <= n && i <= room
        invariant forall k | 0 <= k < i :: keys[k] != []
      {
        if i >= room { return Lost; }
        if stored[i] == [] { return Err(Bad); }
        i := i + 1;
      }
      g := Val(());
    }

    /** Find flag, start, limit and filters, after the keys. */
    method Tail(v: Version, table: Table, n: nat, stored: seq<seq<CString>>, ghost keys: seq<seq<CString>>)
        returns (g: Got<Find>)
      requires Valid() && |keys| == n && stored == Stored(keys, Room(v, n))
      modifies this`pos
      ensures Valid() && Matches(g, ReadTail(v, table, keys, old(Rest())), Rest())
    {
      hide ReadU8, ReadU32, ReadFilters, Room, CheckFind, Stored;
      CheckedStored(v, keys);
      var flag := U8();
      if !flag.Val? { return Failed(flag); }
      var start := U32();
      if !start.Val? { return Failed(start); }
      var limit := U32();
      if !limit.Val? { return Failed(limit); }
      var checked := CheckKeys(v, n, flag.value, stored, keys);
      if !checked.Val? { return Failed(checked); }
      var m := U32();
      if !m.Val? { return Failed(m); }
      var filters := Filters(m.value);
      if !filters.Val? { return Failed(filters); }
      g := Val(Find(table, stored, flag.value, start.value, limit.value, filters.value));
    }

    /** `_decode_to_get`, and the same code for delete and count. */
    method ReadGet(v: Version, needField: bool) returns (g: Got<Find>)
      requires Valid()
      modifies this`pos
      ensures Valid() && Matches(g, ReadFind(v, old(Rest()), needField), Rest())
    {
      hide ReadTable, ReadU32, ReadKeys, ReadTail;
      var table := ReadTableInfo(needField);
      if !table.Val? { return Failed(table); }
      var n := U32();
      if !n.Val? { return Failed(n); }
      ghost var s := Rest();
      var keys := Keys(n.value, Room(v, n.value));
      if !keys.Val? { return Failed(keys); }
      ReadKeysCount(n.value, s);
      g := Tail(v, table.value, n.value, keys.value, ReadKeys(n.value, s).value);
    }

    /** `decode_to_update` and `decode_to_insert` up to the end of the packet. */
    method ReadBody(v: Version, kind: Kind) returns (g: Got<Request>)
      requires Valid()
      modifies this`pos
      ensures Valid() && Matches(g, ReadRequest(v, kind, old(Rest())), Rest())
    {
      hide ReadFind, ReadTable, ReadUpdates, Matches;
      match kind {
        case Get => g := Found(v, Get);
        case Count => g := Found(v, Count);
        case Delete => g := Found(v, Delete);
        case Update => g := Updated(v);
        case Insert => g := Inserted(v);
      }
    }

    method Found(v: Version, kind: Kind) returns (g: Got<Request>)
      requires Valid() && (kind.Get? || kind.Count? || kind.Delete?)
      modifies this`pos
      ensures Valid() && Matches(g, ReadRequest(v, kind, old(Rest())), Rest())
    {
      hide ReadFind, ReadTable, ReadUpdates;
      var f := ReadGet(v, kind.Get?);
      if !f.Val? { return if f.Lost? then Lost else Err(if kind.Get? then Bad else f.error); }
      g := Val(Finding(kind, f.value));
    }

    method Updated(v: Version) returns (g: Got<Request>)
      requires Valid()
      modifies this`pos
      ensures Valid() && Matches(g, ReadRequest(v, Update, old(Rest())), Rest())
    {
      hide ReadFind, ReadTable, ReadUpdates;
      var f := ReadGet(v, true);
      if !f.Val? { return if f.Lost? then Lost else Err(Bad); }
      var vs := Updates(f.value.table.fieldNum);
      if !vs.Val? { return Failed(vs); }
      g := Val(Updating(f.value, vs.value));
    }

    method Inserted(v: Version) returns (g: Got<Request>)
      requires Valid()
      modifies this`pos
      ensures Valid() && Matches(g, ReadRequest(v, Insert, old(Rest())), Rest())
    {
      hide ReadFind, ReadTable, ReadUpdates;
      var table := ReadTableInfo(false);
      if !table.Val? { return Failed(table); }
      var vs := Updates(table.value.fieldNum);
      if !vs.Val? { return Failed(vs); }
      g := Val(Inserting(table.value, vs.value));
    }
  }

  /** `decode_request_by_binary`, `decode_request_by_binary_v2` */
  method DecodeRequest(v: Version, kind: Kind, packet: seq<Octet>) returns (g: Got<Request>)
    ensures Matches(g, Decode(v, kind, packet), [])
  {
    hide ReadRequest, Decode, Matches;
    var reader := new Reader(packet);
    g := reader.ReadBody(v, kind);
    Ends(v, kind, packet, g, reader.Rest());
    if g.Val? && reader.pos != |packet| { g := Err(Bad); }
  }

  /** Past the checks, all keys have been kept. */
  lemma CheckedStored(v: Version, keys: seq<seq<CString>>)
    ensures forall flag: nat, s: seq<Octet> | CheckFind(v, keys, flag, s).Ok? :: Stored(keys, Room(v, |keys|)) == keys
  {
  }

  lemma Ends(v: Version, kind: Kind, packet: seq<Octet>, g: Got<Request>, rest: seq<Octet>)
    requires Matches(g, ReadRequest(v, kind, packet), rest)
    ensures Matches(if g.Val? && |rest| > 0 then Err(Bad) else g, Decode(v, kind, packet), [])
  {
    hide ReadRequest;
  }
}
