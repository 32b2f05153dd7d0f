/** The scan loop of `do_find`: rows of one or several keys, filtered, skipped and limited. */
module IndexScan {
  import opened Wire

  // ---- filters

  datatype Cell = Null | Bytes(bytes: seq<Octet>)

  type Row = seq<Cell>

  datatype Flag = EQ | GE | LE | GT | LT | NOT

  /** A filter on field `field`: its value, if any, is stored in the packed form of that field. */
  datatype Filter = Filter(field: nat, flag: Flag, value: Cell)

  /** A table: the packed length of each field, and its comparison of two packed values. */
  datatype Table = Table(packLength: seq<nat>, compare: (nat, seq<Octet>, seq<Octet>) -> int)

  predicate FilterOk(t: Table, f: Filter) {
    f.field < |t.packLength| && (f.value.Bytes? ==> |f.value.bytes| == t.packLength[f.field])
  }

  predicate FiltersOk(t: Table, fs: seq<Filter>) { forall i | 0 <= i < |fs| :: FilterOk(t, fs[i]) }

  predicate RowOk(t: Table, r: Row) { |r| == |t.packLength| }

  /** The order in which NULL comes first. */
  function Compared(t: Table, r: Row, f: Filter): int
    requires RowOk(t, r) && FilterOk(t, f)
  {
    match (r[f.field], f.value)
    case (Null, Null) => 0
    case (Null, Bytes(_)) => -1
    case (Bytes(_), Null) => 1
    case (Bytes(x), Bytes(y)) => t.compare(f.field, x, y)
  }

  predicate Holds(flag: Flag, c: int) {
    match flag
    case EQ => c == 0 case GE => c >= 0 case LE => c <= 0 case GT => c > 0 case LT => c < 0 case NOT => c != 0
  }

  /** What the flags mean to each other. */
  lemma FlagLaws(c: int)
    ensures Holds(GE, c) <==> Holds(EQ, c) || Holds(GT, c)
    ensures Holds(LE, c) <==> Holds(EQ, c) || Holds(LT, c)
    ensures Holds(LT, c) <==> !Holds(GE, c)
    ensures Holds(GT, c) <==> !Holds(LE, c)
    ensures Holds(NOT, c) <==> !Holds(EQ, c)
    ensures Holds(EQ, 0) && (c < 0 ==> Holds(LT, c)) && (c > 0 ==> Holds(GT, c))
  {
  }

  /** NULL is equal to itself and less than every value; other cells compare as their field does. */
  lemma NullLaws(t: Table, r: Row, f: Filter)
    requires RowOk(t, r) && FilterOk(t, f)
    ensures var c, cell := Compared(t, r, f), r[f.field];
            && (cell.Null? && f.value.Null? ==> Holds(EQ, c))
            && (cell.Null? && f.value.Bytes? ==> Holds(LT, c))
            && (cell.Bytes? && f.value.Null? ==> Holds(GT, c))
            && (cell.Bytes? && f.value.Bytes? ==> c == t.compare(f.field, cell.bytes, f.value.bytes))
  {
  }

  predicate Passes(t: Table, r: Row, fs: seq<Filter>)
    requires RowOk(t, r) && FiltersOk(t, fs)
  {
    forall i | 0 <= i < |fs| :: Holds(fs[i].flag, Compared(t, r, fs[i]))
  }

  /** The values that are not NULL, one after another. */
  function Packed(fs: seq<Filter>): seq<Octet> {
    if fs == [] then [] else
      Packed(fs[..|fs| - 1]) + match fs[|fs| - 1].value case Null => [] case Bytes(b) => b
  }

  lemma PackedNext(fs: seq<Filter>, i: nat)
    requires i < |fs|
    ensures Packed(fs[..i + 1]) == Packed(fs[..i]) + match fs[i].value case Null => [] case Bytes(b) => b
  {
    assert fs[..i + 1][..i] == fs[..i];
  }

  lemma {:induction false} PackedPrefix(fs: seq<Filter>, i: nat)
    requires i <= |fs|
    ensures Packed(fs[..i]) <= Packed(fs)
    decreases |fs| - i
  {
    if i == |fs| { assert fs[..i] == fs; } else { PackedNext(fs, i); PackedPrefix(fs, i + 1); }
  }

  /** `calc_filter_buf_size` and `fill_filter_buf`, into a buffer with one byte to spare */
  method FillFilterBuf(t: Table, fs: seq<Filter>) returns (buf: array<Octet>, size: nat)
    requires FiltersOk(t, fs)
    ensures fresh(buf) && size == |Packed(fs)| && buf.Length == size + 1 && buf[..size] == Packed(fs)
  {
    hide Packed;
    NothingPacked(fs);
    size := 0;
    for i := 0 to |fs|
      invariant size == |Packed(fs[..i])|
    {
      PackedNext(fs, i);
      assert FilterOk(t, fs[i]);
      if fs[i].value.Null? { continue; }
      size := size + t.packLength[fs[i].field];
    }
    assert fs[..|fs|] == fs;
    buf := new Octet[size + 1](_ => 0);
    var pos := 0;
    for i := 0 to |fs|
      invariant pos == |Packed(fs[..i])| <= size < buf.Length && buf[..pos] == Packed(fs[..i])
    {
      PackedNext(fs, i);
      PackedPrefix(fs, i + 1);
      assert FilterOk(t, fs[i]);
      if fs[i].value.Null? { continue; }
      CopyTo(buf, pos, fs[i].value.bytes);
      pos := pos + t.packLength[fs[i].field];
    }
  }

  lemma NothingPacked(fs: seq<Filter>)
    ensures Packed(fs[..0]) == []
  {
  }

  /** `memcpy` */
  method CopyTo(buf: array<Octet>, pos: nat, bytes: seq<Octet>)
    requires pos + |bytes| <= buf.Length
    modifies buf
    ensures buf[..pos + |bytes|] == old(buf[..pos]) + bytes
  {
    for k := 0 to |bytes|
      invariant buf[..pos] == old(buf[..pos]) && forall j | 0 <= j < k :: buf[pos + j] == bytes[j]
    {
      buf[pos + k] := bytes[k];
    }
    assert buf[pos..pos + |bytes|] == bytes;
    assert buf[..pos + |bytes|] == buf[..pos] + buf[pos..pos + |bytes|];
  }

  /** `filter_record`: a position moves over the buffer as it did when the buffer was filled. */
  method FilterRecord(t: Table, r: Row, fs: seq<Filter>, buf: array<Octet>) returns (pass: bool)
    requires RowOk(t, r) && FiltersOk(t, fs) && |Packed(fs)| <= buf.Length && buf[..|Packed(fs)|] == Packed(fs)
    ensures pass == Passes(t, r, fs)
  {
    hide Packed;
    var pos := 0;
    NothingPacked(fs);
    for i := 0 to |fs|
      invariant pos == |Packed(fs[..i])|
      invariant forall k | 0 <= k < i :: Holds(fs[k].flag, Compared(t, r, fs[k]))
    {
      assert FilterOk(t, fs[i]);
      PackedNext(fs, i);
      PackedPrefix(fs, i + 1);
      var f := fs[i];
      var cv;
      if r[f.field].Null? {
        cv := if f.value.Null? then 0 else -1;
      } else if f.value.Null? {
        cv := 1;
      } else {
        var bval := buf[pos..pos + t.packLength[f.field]];
        assert bval == Packed(fs)[pos..pos + |f.value.bytes|] == f.value.bytes by {
          assert Packed(fs[..i + 1])[pos..] == f.value.bytes;
        }
        cv := t.compare(f.field, r[f.field].bytes, bval);
      }
      if !Holds(f.flag, cv) { return false; }
      if f.value.Bytes? { pos := pos + t.packLength[f.field]; }
    }
    pass := true;
  }

  // ---- streams of records

  /** What the index gives for a key: records, some of them marked deleted, up to the end or an error. */
  datatype Item = Found(row: Row) | Deleted

  datatype Ending = NoMore | Failure(code: nat)

  datatype Stream = Stream(items: seq<Item>, ending: Ending)

  predicate StreamOk(t: Table, s: Stream) {
    forall i | 0 <= i < |s.items| :: s.items[i].Found? ==> RowOk(t, s.items[i].row)
  }

  /** What is still to be read at position `p` of key `k`; only an IN goes on to the next key. */
  function Rest(keys: seq<Stream>, isIn: bool, k: nat, p: nat): Stream
    requires k < |keys| && p <= |keys[k].items|
    decreases |keys| - k
  {
    var s := keys[k];
    if !isIn || k + 1 == |keys| || s.ending.Failure? then Stream(s.items[p..], s.ending)
    else
      var r := Rest(keys, isIn, k + 1, 0);
      Stream(s.items[p..] + r.items, r.ending)
  }

  /** The rows that are there and pass the filters. */
  function Kept(t: Table, fs: seq<Filter>, items: seq<Item>): seq<Row>
    requires FiltersOk(t, fs) && StreamOk(t, Stream(items, NoMore))
  {
    if items == [] then [] else
      (match items[0] case Found(r) => if Passes(t, r, fs) then [r] else [] case Deleted => []) +
        Kept(t, fs, items[1..])
  }

  /** The loop's own order of business, row by row. */
  function Window(rows: seq<Row>, skip: nat, left: nat, unlimited: bool): seq<Row> {
    if (!unlimited && left == 0) || rows == [] then []
    else if skip > 0 then Window(rows[1..], skip - 1, left, unlimited)
    else [rows[0]] + Window(rows[1..], 0, if unlimited then left else left - 1, unlimited)
  }

  function Outcome(rows: seq<Row>, ending: Ending, skip: nat, left: nat, unlimited: bool): Ending {
    if !unlimited && left == 0 then NoMore
    else if rows == [] then ending
    else
      Outcome(rows[1..], ending, if skip > 0 then skip - 1 else 0,
              if unlimited || skip > 0 then left else left - 1, unlimited)
  }

  // ---- what that comes to

  function Drop(rows: seq<Row>, n: nat): seq<Row> { if |rows| <= n then [] else rows[n..] }

  /** At most `limit` rows, where 0 stands for no limit. */
  function Take(rows: seq<Row>, limit: nat): seq<Row> { if limit == 0 || |rows| <= limit then rows else rows[..limit] }

  lemma {:induction false} WindowIs(rows: seq<Row>, skip: nat, left: nat, unlimited: bool)
    ensures Window(rows, skip, left, unlimited) ==
            if unlimited then Drop(rows, skip) else if left == 0 then [] else Take(Drop(rows, skip), left)
  {
    if rows != [] && (unlimited || left > 0) {
      if skip > 0 {
        WindowIs(rows[1..], skip - 1, left, unlimited);
        if |rows| > skip { assert rows[1..][skip - 1..] == rows[skip..]; }
      } else {
        WindowIs(rows[1..], 0, if unlimited then left else left - 1, unlimited);
        assert rows == [rows[0]] + rows[1..];
        if !unlimited && |rows| > left { assert rows[..left] == [rows[0]] + rows[1..][..left - 1]; }
      }
    }
  }

  /** An error is reported exactly when the scan gets that far. */
  lemma {:induction false} OutcomeIs(rows: seq<Row>, ending: Ending, skip: nat, left: nat, unlimited: bool)
    ensures Outcome(rows, ending, skip, left, unlimited) ==
            if !unlimited && (left == 0 || |rows| >= skip + left) then NoMore else ending
  {
    if rows != [] && (unlimited || left > 0) {
      OutcomeIs(rows[1..], ending, if skip > 0 then skip - 1 else 0,
                if unlimited || skip > 0 then left else left - 1, unlimited);
    }
  }

  function AllItems(keys: seq<Stream>, k: nat): seq<Item>
    requires k <= |keys|
    decreases |keys| - k
  {
    if k == |keys| then [] else keys[k].items + AllItems(keys, k + 1)
  }

  /** Without errors, an IN reads the records of all its keys, key after key. */
  lemma {:induction false} InReadsAll(keys: seq<Stream>, k: nat)
    requires k < |keys| && forall j | 0 <= j < |keys| :: keys[j].ending == NoMore
    ensures Rest(keys, true, k, 0) == Stream(AllItems(keys, k), NoMore)
    decreases |keys| - k
  {
    assert keys[k].items[0..] == keys[k].items;
    if k + 1 < |keys| { InReadsAll(keys, k + 1); } else { assert keys[k].items + [] == keys[k].items; }
  }

  /** The keys that a scan reads: all of an IN up to the first that fails, and else the first one. */
  function KeysRead(keys: seq<Stream>, isIn: bool, k: nat): nat
    requires k < |keys|
    decreases |keys| - k
  {
    if isIn && k + 1 < |keys| && keys[k].ending == NoMore then KeysRead(keys, isIn, k + 1) else k + 1
  }

  function ItemsOf(keys: seq<Stream>, k: nat, n: nat): seq<Item>
    requires k <= n <= |keys|
    decreases n - k
  {
    if k == n then [] else keys[k].items + ItemsOf(keys, k + 1, n)
  }

  /** What a scan reads: the items of those keys, one after another, and the ending of the last. */
  lemma {:induction false} ScanReads(keys: seq<Stream>, isIn: bool, k: nat)
    requires k < |keys|
    ensures var n := KeysRead(keys, isIn, k);
            && k < n <= |keys| && (!isIn ==> n == k + 1)
            && (forall j | k <= j < n - 1 :: keys[j].ending == NoMore)
            && (isIn ==> n == |keys| || keys[n - 1].ending != NoMore)
            && Rest(keys, isIn, k, 0) == Stream(ItemsOf(keys, k, n), keys[n - 1].ending)
    decreases |keys| - k
  {
    assert keys[k].items[0..] == keys[k].items;
    if isIn && k + 1 < |keys| && keys[k].ending == NoMore {
      ScanReads(keys, isIn, k + 1);
    } else {
      assert keys[k].items + ItemsOf(keys, k + 1, k + 1) == keys[k].items;
    }
  }

  // ---- the loop

  predicate KeysOk(t: Table, keys: seq<Stream>) { forall k | 0 <= k < |keys| :: StreamOk(t, keys[k]) }

  lemma {:induction false} RestOk(t: Table, keys: seq<Stream>, isIn: bool, k: nat, p: nat)
    requires k < |keys| && p <= |keys[k].items| && KeysOk(t, keys)
    ensures StreamOk(t, Stream(Rest(keys, isIn, k, p).items, NoMore))
    decreases |keys| - k
  {
    assert StreamOk(t, keys[k]);
    if isIn && k + 1 < |keys| { RestOk(t, keys, isIn, k + 1, 0); }
  }

  lemma RestNext(keys: seq<Stream>, isIn: bool, k: nat, p: nat)
    requires k < |keys| && p < |keys[k].items|
    ensures var r, r' := Rest(keys, isIn, k, p), Rest(keys, isIn, k, p + 1);
            r.items == [keys[k].items[p]] + r'.items && r.ending == r'.ending
  {
    assert keys[k].items[p..] == [keys[k].items[p]] + keys[k].items[p + 1..];
  }

  lemma RestEnd(keys: seq<Stream>, isIn: bool, k: nat)
    requires k < |keys|
    ensures var n := |keys[k].items|;
            Rest(keys, isIn, k, n) ==
            if isIn && k + 1 < |keys| && keys[k].ending == NoMore then Rest(keys, isIn, k + 1, 0)
              else Stream([], keys[k].ending)
  {
    if isIn && k + 1 < |keys| { var r := Rest(keys, isIn, k + 1, 0); assert [] + r.items == r.items; }
  }

  lemma KeptNext(t: Table, fs: seq<Filter>, items: seq<Item>, x: Item)
    requires FiltersOk(t, fs) && StreamOk(t, Stream([x] + items, NoMore))
    ensures StreamOk(t, Stream(items, NoMore)) && (x.Found? ==> RowOk(t, x.row))
    ensures Kept(t, fs, [x] + items) ==
            if x.Found? && Passes(t, x.row, fs) then [x.row] + Kept(t, fs, items) else Kept(t, fs, items)
  {
    assert ([x] + items)[0] == x && ([x] + items)[1..] == items;
    forall i | 0 <= i < |items| && items[i].Found? ensures RowOk(t, items[i].row) {
      assert ([x] + items)[i + 1] == items[i];
    }
    assert StreamOk(t, Stream(items, NoMore));
  }

  /** The kept rows that are still to come. */
  ghost function Coming(t: Table, fs: seq<Filter>, keys: seq<Stream>, isIn: bool, k: nat, p: nat): seq<Row>
    requires FiltersOk(t, fs) && KeysOk(t, keys) && k < |keys| && p <= |keys[k].items|
  {
    RestOk(t, keys, isIn, k, p);
    Kept(t, fs, Rest(keys, isIn, k, p).items)
  }

  lemma ComingNext(t: Table, fs: seq<Filter>, keys: seq<Stream>, isIn: bool, k: nat, p: nat)
    requires FiltersOk(t, fs) && KeysOk(t, keys) && k < |keys| && p < |keys[k].items|
    ensures var x := keys[k].items[p];
            && (x.Found? ==> RowOk(t, x.row))
            && Coming(t, fs, keys, isIn, k, p) ==
               (if x.Found? && Passes(t, x.row, fs) then [x.row] else []) + Coming(t, fs, keys, isIn, k, p + 1)
            && Rest(keys, isIn, k, p).ending == Rest(keys, isIn, k, p + 1).ending
  {
    hide Rest, Passes;
    RestOk(t, keys, isIn, k, p);
    RestOk(t, keys, isIn, k, p + 1);
    RestNext(keys, isIn, k, p);
    KeptNext(t, fs, Rest(keys, isIn, k, p + 1).items, keys[k].items[p]);
  }

  /** One kept row: it is skipped, or processed and counted. */
  lemma OneRow(x: Row, more: seq<Row>, ending: Ending, skip: nat, left: nat, unlimited: bool)
    requires unlimited || left > 0
    ensures var skip' := if skip > 0 then skip - 1 else 0;
            var left' := if unlimited || skip > 0 then left else left - 1;
            && Window([x] + more, skip, left, unlimited) == (if skip == 0 then [x] else []) +
              Window(more, skip', left', unlimited)
            && Outcome([x] + more, ending, skip, left, unlimited) == Outcome(more, ending, skip', left', unlimited)
  {
    assert ([x] + more)[0] == x && ([x] + more)[1..] == more;
  }

  lemma NoRow(ending: Ending, skip: nat, left: nat, unlimited: bool)
    ensures Window([], skip, left, unlimited) == []
    ensures unlimited || left > 0 ==> Outcome([], ending, skip, left, unlimited) == ending
    ensures forall rows: seq<Row> ::
            Window(rows, skip, 0, false) == [] && Outcome(rows, ending, skip, 0, false) == NoMore
  {
  }

  /** In the middle of the scan: what is processed, and what is still to come of it, make up `wanted`
      and `final`. */
  ghost predicate OnTrack(t: Table, fs: seq<Filter>, keys: seq<Stream>, isIn: bool, k: nat, p: nat, rows: seq<Row>,
      skip: nat, left: nat, unlimited: bool, wanted: seq<Row>, final: Ending)
  {
    && FiltersOk(t, fs) && KeysOk(t, keys) && k < |keys| && p <= |keys[k].items|
    && rows + Window(Coming(t, fs, keys, isIn, k, p), skip, left, unlimited) == wanted
    && Outcome(Coming(t, fs, keys, isIn, k, p), Rest(keys, isIn, k, p).ending, skip, left, unlimited) == final
  }

  lemma TrackStart(t: Table, fs: seq<Filter>, keys: seq<Stream>, isIn: bool, start: nat, limit: nat)
    requires FiltersOk(t, fs) && KeysOk(t, keys) && keys != []
    ensures var all := Coming(t, fs, keys, isIn, 0, 0);
            OnTrack(t, fs, keys, isIn, 0, 0, [], start, limit, limit == 0, Take(Drop(all, start), limit),
                    if limit > 0 && |all| >= start + limit then NoMore else Rest(keys, isIn, 0, 0).ending)
  {
    hide Rest, Coming, KeysOk, FiltersOk, Window, Outcome;
    var all := Coming(t, fs, keys, isIn, 0, 0);
    WindowIs(all, start, limit, limit == 0);
    OutcomeIs(all, Rest(keys, isIn, 0, 0).ending, start, limit, limit == 0);
  }

  /** A record that is deleted or does not pass. */
  lemma TrackPast(t: Table, fs: seq<Filter>, keys: seq<Stream>, isIn: bool, k: nat, p: nat, rows: seq<Row>,
      skip: nat, left: nat, unlimited: bool, wanted: seq<Row>, final: Ending)
    requires OnTrack(t, fs, keys, isIn, k, p, rows, skip, left, unlimited, wanted, final) && p < |keys[k].items|
    requires var x := keys[k].items[p]; x.Found? && RowOk(t, x.row) ==> !Passes(t, x.row, fs)
    ensures OnTrack(t, fs, keys, isIn, k, p + 1, rows, skip, left, unlimited, wanted, final)
  {
    hide Rest, Coming, KeysOk, FiltersOk, Window, Outcome, Passes;
    ComingNext(t, fs, keys, isIn, k, p);
    var more := Coming(t, fs, keys, isIn, k, p + 1);
    assert [] + more == more;
  }

  /** A record that passes. */
  lemma TrackRow(t: Table, fs: seq<Filter>, keys: seq<Stream>, isIn: bool, k: nat, p: nat, rows: seq<Row>,
      skip: nat, left: nat, unlimited: bool, wanted: seq<Row>, final: Ending)
    requires OnTrack(t, fs, keys, isIn, k, p, rows, skip, left, unlimited, wanted, final) && p < |keys[k].items|
    requires var x := keys[k].items[p]; x.Found? && RowOk(t, x.row) && Passes(t, x.row, fs)
    requires unlimited || left > 0
    ensures OnTrack(t, fs, keys, isIn, k, p + 1,
                    if skip == 0 then rows + [keys[k].items[p].row] else rows, if skip > 0 then skip - 1 else 0,
                    if unlimited || skip > 0 then left else left - 1, unlimited, wanted, final)
  {
    hide Rest, Coming, KeysOk, FiltersOk, Window, Outcome, Passes;
    ComingNext(t, fs, keys, isIn, k, p);
    OneRow(keys[k].items[p].row, Coming(t, fs, keys, isIn, k, p + 1), Rest(keys, isIn, k, p + 1).ending, skip, left,
      unlimited);
  }

  /** The end of a key. */
  lemma TrackKey(t: Table, fs: seq<Filter>, keys: seq<Stream>, isIn: bool, k: nat, rows: seq<Row>, skip: nat, left: nat,
                 unlimited: bool, wanted: seq<Row>, final: Ending)
    requires k < |keys| && OnTrack(t, fs, keys, isIn, k, |keys[k].items|, rows, skip, left, unlimited, wanted, final)
    requires unlimited || left > 0
    ensures if isIn && k + 1 < |keys| && keys[k].ending == NoMore
            then OnTrack(t, fs, keys, isIn, k + 1, 0, rows, skip, left, unlimited, wanted, final)
            else rows == wanted && keys[k].ending == final
  {
    hide Rest, Coming, KeysOk, FiltersOk, Window, Outcome, Passes;
    RestEnd(keys, isIn, k);
    ComingEnd(t, fs, keys, isIn, k);
    NoRow(keys[k].ending, skip, left, unlimited);
  }

  /** The limit is reached. */
  lemma TrackDone(t: Table, fs: seq<Filter>, keys: seq<Stream>, isIn: bool, k: nat, p: nat, rows: seq<Row>, skip: nat,
                  wanted: seq<Row>, final: Ending)
    requires OnTrack(t, fs, keys, isIn, k, p, rows, skip, 0, false, wanted, final)
    ensures rows == wanted && final == NoMore
  {
    hide Rest, Coming, KeysOk, FiltersOk, Window, Outcome;
    NoRow(Rest(keys, isIn, k, p).ending, skip, 0, false);
  }

  lemma RowIsOk(t: Table, keys: seq<Stream>, k: nat, p: nat)
    requires KeysOk(t, keys) && k < |keys| && p < |keys[k].items| && keys[k].items[p].Found?
    ensures RowOk(t, keys[k].items[p].row)
  {
    assert StreamOk(t, keys[k]);
  }

  /** The processed rows are the window of the kept ones, and an error is reported if it was met. */
  method DoFind(t: Table, fs: seq<Filter>, keys: seq<Stream>, isIn: bool, start: nat, limit: nat)
    returns (rows: seq<Row>, ending: Ending)
    requires FiltersOk(t, fs) && KeysOk(t, keys) && keys != []
    ensures var all := Coming(t, fs, keys, isIn, 0, 0);
            && rows == Take(Drop(all, start), limit)
            && ending == if limit > 0 && |all| >= start + limit then NoMore else Rest(keys, isIn, 0, 0).ending
  {
    hide Packed, Rest, Coming, KeysOk, FiltersOk, Passes, OnTrack, Take, Drop;
    var buf, size := FillFilterBuf(t, fs);
    TrackStart(t, fs, keys, isIn, start, limit);
    ghost var all := Coming(t, fs, keys, isIn, 0, 0);
    ghost var wanted := Take(Drop(all, start), limit);
    ghost var final := if limit > 0 && |all| >= start + limit then NoMore else Rest(keys, isIn, 0, 0).ending;
    rows, ending := [], NoMore;
    var skip, left, unlimited := start, limit, limit == 0;
    var k, p := 0, 0;
    while unlimited || left != 0
      invariant k < |keys| && p <= |keys[k].items|
      invariant ending == NoMore && buf[..size] == Packed(fs) && size == |Packed(fs)| < buf.Length
      invariant OnTrack(t, fs, keys, isIn, k, p, rows, skip, left, unlimited, wanted, final)
      decreases |keys| - k, |keys[k].items| - p
    {
      if p < |keys[k].items| {
        var x := keys[k].items[p];
        ghost var p0 := p;
        p := p + 1;
        if x.Deleted? {
          TrackPast(t, fs, keys, isIn, k, p0, rows, skip, left, unlimited, wanted, final);
          continue;
        }
        RowIsOk(t, keys, k, p0);
        if fs != [] {
          var pass := FilterRecord(t, x.row, fs, buf);
          if !pass {
            TrackPast(t, fs, keys, isIn, k, p0, rows, skip, left, unlimited, wanted, final);
            continue;
          }
        } else {
          AllPass(t, x.row);
        }
        TrackRow(t, fs, keys, isIn, k, p0, rows, skip, left, unlimited, wanted, final);
        if !unlimited && skip == 0 { left := left - 1; }
        if skip == 0 { rows := rows + [x.row]; }
        if skip > 0 { skip := skip - 1; }
      } else {
        TrackKey(t, fs, keys, isIn, k, rows, skip, left, unlimited, wanted, final);
        if isIn && k + 1 < |keys| && keys[k].ending == NoMore {
          k, p := k + 1, 0;
          continue;
        }
        ending := keys[k].ending;
        return;
      }
    }
    TrackDone(t, fs, keys, isIn, k, p, rows, skip, wanted, final);
  }

  lemma AllPass(t: Table, row: Row)
    requires FiltersOk(t, []) && RowOk(t, row)
    ensures Passes(t, row, [])
  {
  }

  lemma ComingEnd(t: Table, fs: seq<Filter>, keys: seq<Stream>, isIn: bool, k: nat)
    requires FiltersOk(t, fs) && KeysOk(t, keys) && k < |keys|
    ensures Coming(t, fs, keys, isIn, k, |keys[k].items|) ==
            if isIn && k + 1 < |keys| && keys[k].ending == NoMore then Coming(t, fs, keys, isIn, k + 1, 0) else []
  {
    RestEnd(keys, isIn, k);
  }
}
