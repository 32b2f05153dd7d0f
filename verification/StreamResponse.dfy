/** A result set on its way to a client: the server cuts it into packets that fit one buffer, the
    client puts them together again and parses them. */
module StreamResponse {
  import opened Wire

  const STATUS_OK := 200
  const STATUS_ACCEPT := 202

  datatype Cell = Null | Text(bytes: seq<Octet>)

  type Row = seq<Cell>

  datatype Packet = Packet(code: nat, length: nat, payload: seq<Octet>)

  predicate CellOk(c: Cell) { c.Text? ==> |c.bytes| < U32 }

  predicate RowsOk(rows: seq<Row>, n: nat) {
    forall i | 0 <= i < |rows| :: |rows[i]| == n && forall j | 0 <= j < n :: CellOk(rows[i][j])
  }

  /** The bytes written for a cell: the empty string goes out as one zero byte, NULL as none. */
  function Written(c: Cell): seq<Octet> {
    match c case Null => [] case Text(bytes) => if bytes == [] then [0] else bytes
  }

  function EncodeCell(c: Cell): seq<Octet>
    requires CellOk(c)
  {
    Be32(|Written(c)|) + Written(c)
  }

  function EncodeRow(r: Row): seq<Octet>
    requires forall j | 0 <= j < |r| :: CellOk(r[j])
  {
    if r == [] then [] else EncodeCell(r[0]) + EncodeRow(r[1..])
  }

  function EncodeRows(rows: seq<Row>, n: nat): seq<Octet>
    requires RowsOk(rows, n)
  {
    if rows == [] then [] else EncodeRow(rows[0]) + EncodeRows(rows[1..], n)
  }

  function Header(types: seq<Octet>): seq<Octet>
    requires |types| < U32
  {
    Be32(|types|) + types
  }

  function Payloads(packets: seq<Packet>): seq<Octet> {
    if packets == [] then [] else Payloads(packets[..|packets| - 1]) + packets[|packets| - 1].payload
  }

  lemma PayloadsSnoc(packets: seq<Packet>, p: Packet)
    ensures Payloads(packets + [p]) == Payloads(packets) + p.payload
  {
    assert (packets + [p])[..|packets|] == packets;
  }

  lemma RowTail(r: Row, j: nat)
    requires j <= |r| && forall k | 0 <= k < |r| :: CellOk(r[k])
    ensures r[0..] == r
    ensures j < |r| ==> CellOk(r[j]) && EncodeRow(r[j..]) == EncodeCell(r[j]) + EncodeRow(r[j + 1..])
    ensures j == |r| ==> EncodeRow(r[j..]) == []
    ensures j < |r| ==> EncodeCell(r[j]) == Be32(|Written(r[j])|) + Written(r[j])
  {
    if j < |r| { assert r[j..][1..] == r[j + 1..]; }
  }

  lemma RowsTail(rows: seq<Row>, n: nat, i: nat)
    requires i <= |rows| && RowsOk(rows, n)
    ensures rows[0..] == rows
    ensures i < |rows| ==> EncodeRows(rows[i..], n) == EncodeRow(rows[i]) + EncodeRows(rows[i + 1..], n)
    ensures i == |rows| ==> EncodeRows(rows[i..], n) == []
  {
    if i < |rows| { assert rows[i..][1..] == rows[i + 1..]; }
  }

  /** What the encoder asserts of a packet, and the size of the one buffer it may fill. */
  predicate PacketOk(p: Packet, cap: nat) { 0 < p.length == |p.payload| <= cap }

  // ---- the server

  /** One response with its buffer, after the packet header. */
  class Writer {
    const cap: nat
    var buf: seq<Octet>
    var length: nat
    var sent: seq<Packet>

    predicate Valid()
      reads this
    {
      && 4 <= cap && length == |buf| <= cap
      && forall i | 0 <= i < |sent| ::
        sent[i].code == STATUS_ACCEPT && PacketOk(sent[i], cap) && cap - sent[i].length < 4
    }

    function Stream(): seq<Octet>
      reads this
    {
      Payloads(sent) + buf
    }

    /** `write_data_header_to_response` */
    constructor (types: seq<Octet>, buffSize: nat)
      requires |types| + 4 < U32 && buffSize < U32
      ensures Valid() && buf != [] && Stream() == Header(types)
      ensures cap == if |types| + 4 > buffSize then |types| + 4 else buffSize
    {
      var size := 4 + |types|;
      cap := if size > buffSize then size else buffSize;
      buf := Be32(|types|) + types;
      length := size;
      sent := [];
    }

    /** `send_stream`, once the IO thread has taken the packet: the buffer starts again. */
    method SendStream()
      requires Valid() && cap - |buf| < 4
      modifies this`buf, this`length, this`sent
      ensures Valid() && buf == [] && Stream() == old(Stream())
    {
      PayloadsSnoc(sent, Packet(STATUS_ACCEPT, length, buf));
      sent := sent + [Packet(STATUS_ACCEPT, length, buf)];
      buf, length := [], 0;
    }

    /** Bytes for which the buffer has room. */
    method Append(data: seq<Octet>)
      requires Valid() && |buf| + |data| <= cap
      modifies this`buf, this`length
      ensures Valid() && buf == old(buf) + data && Stream() == old(Stream()) + data
    {
      hide Payloads;
      buf := buf + data;
      length := length + |data|;
    }

    /** `write_data_to_response` */
    method WriteData(data: seq<Octet>)
      requires Valid() && |data| < U32
      modifies this`buf, this`length, this`sent
      ensures Valid() && buf != [] && Stream() == old(Stream()) + (Be32(|data|) + data)
    {
      hide Payloads, Stream, Be32;
      if cap - |buf| < 4 { SendStream(); }
      Append(Be32(|data|));
      ghost var start := Stream();
      var done := 0;
      while done < |data|
        invariant done <= |data| && Valid() && buf != [] && Stream() == start + data[..done]
        decreases |data| - done, |buf|
      {
        if |buf| == cap { SendStream(); }
        var room := cap - |buf|;
        var take := if room < |data| - done then room else |data| - done;
        Append(data[done..done + take]);
        assert data[..done] + data[done..done + take] == data[..done + take];
        done := done + take;
      }
      assert data[..done] == data;
    }

    /** `response_record` */
    method WriteRow(row: Row)
      requires Valid() && buf != [] && forall j | 0 <= j < |row| :: CellOk(row[j])
      modifies this`buf, this`length, this`sent
      ensures Valid() && buf != [] && Stream() == old(Stream()) + EncodeRow(row)
    {
      hide Stream, EncodeRow, EncodeCell;
      var j := 0;
      RowTail(row, 0);
      while j < |row|
        invariant j <= |row| && Valid() && buf != []
        invariant Stream() + EncodeRow(row[j..]) == old(Stream()) + EncodeRow(row)
      {
        RowTail(row, j);
        ghost var s := Stream();
        WriteData(Written(row[j]));
        assert s + (EncodeCell(row[j]) + EncodeRow(row[j + 1..])) == Stream() + EncodeRow(row[j + 1..]);
        j := j + 1;
      }
      RowTail(row, j);
      assert Stream() + [] == Stream();
    }
  }

  /** A whole answer: every packet but the last says that more is to come, and is full up to the
      space that a length needs. */
  method Respond(types: seq<Octet>, rows: seq<Row>, buffSize: nat) returns (packets: seq<Packet>, ghost cap: nat)
    requires |types| + 4 < U32 && buffSize < U32 && RowsOk(rows, |types|)
    ensures packets != [] && Payloads(packets) == Header(types) + EncodeRows(rows, |types|)
    ensures forall i | 0 <= i < |packets| :: packets[i].code == if i == |packets| - 1 then STATUS_OK else STATUS_ACCEPT
    ensures cap == if |types| + 4 > buffSize then |types| + 4 else buffSize
    ensures forall i | 0 <= i < |packets| :: PacketOk(packets[i], cap)
    ensures forall i | 0 <= i < |packets| - 1 :: cap - packets[i].length < 4
  {
    hide Header, EncodeRows, EncodeRow, Payloads;
    var n := |types|;
    var w := new Writer(types, buffSize);
    var i := 0;
    RowsTail(rows, n, 0);
    while i < |rows|
      invariant i <= |rows| && w.Valid() && w.buf != []
      invariant w.Stream() + EncodeRows(rows[i..], n) == Header(types) + EncodeRows(rows, n)
    {
      RowsTail(rows, n, i);
      ghost var s := w.Stream();
      w.WriteRow(rows[i]);
      assert s + (EncodeRow(rows[i]) + EncodeRows(rows[i + 1..], n)) == w.Stream() + EncodeRows(rows[i + 1..], n);
      i := i + 1;
    }
    RowsTail(rows, n, i);
    assert w.Stream() + [] == w.Stream();
    cap := w.cap;
    PayloadsSnoc(w.sent, Packet(STATUS_OK, w.length, w.buf));
    packets := w.sent + [Packet(STATUS_OK, w.length, w.buf)];
  }

  // ---- the client

  /** `Broken`: `unpack` meets fewer bytes than it needs. `Endless`: no field, but data left. */
  datatype Parsed = Table(types: seq<Octet>, rows: seq<Row>) | Broken | Endless

  datatype Piece<T> = Got(value: T, rest: seq<Octet>) | Short

  function ParseCell(s: seq<Octet>): Piece<Cell> {
    if |s| < 4 then Short
    else
      var n := FromBe32(s[..4]);
      if n == 0 then Got(Null, s[4..])
      else if |s| - 4 < n then Short
      else
        var value := s[4..4 + n];
        Got(Text(if value == [0] then [] else value), s[4 + n..])
  }

  function Prepend<T>(xs: seq<T>, p: Piece<seq<T>>): Piece<seq<T>> {
    match p case Short => Short case Got(ys, rest) => Got(xs + ys, rest)
  }

  function ParseRow(n: nat, s: seq<Octet>): (r: Piece<Row>)
    ensures r.Got? ==> |r.rest| + 4 * n <= |s|
  {
    if n == 0 then Got([], s) else
      match ParseCell(s)
      case Short => Short
      case Got(c, rest) => Prepend([c], ParseRow(n - 1, rest))
  }

  function ParseRows(n: nat, s: seq<Octet>): Piece<seq<Row>>
    requires n > 0
    decreases |s|
  {
    if s == [] then Got([], []) else
      match ParseRow(n, s)
      case Short => Short
      case Got(r, rest) => Prepend([r], ParseRows(n, rest))
  }

  function Parse(s: seq<Octet>): Parsed {
    if |s| < 4 then Broken
    else
      var n := FromBe32(s[..4]);
      if |s| - 4 < n then Broken
      else if n == 0 then if |s| == 4 then Table([], []) else Endless
      else
        match ParseRows(n, s[4 + n..]) case Short => Broken case Got(rows, _) => Table(s[4..4 + n], rows)
  }

  /** What a client can tell of a cell: one zero byte reads as the empty string. */
  function Seen(c: Cell): Cell { if c == Text([0]) then Text([]) else c }

  function SeenRow(r: Row): (v: Row)
    ensures |v| == |r| && forall j | 0 <= j < |r| :: v[j] == Seen(r[j])
  {
    seq(|r|, j requires 0 <= j < |r| => Seen(r[j]))
  }

  function SeenRows(rows: seq<Row>): (v: seq<Row>)
    ensures |v| == |rows| && forall i | 0 <= i < |rows| :: v[i] == SeenRow(rows[i])
  {
    seq(|rows|, i requires 0 <= i < |rows| => SeenRow(rows[i]))
  }

  lemma CellRoundTrip(c: Cell, rest: seq<Octet>)
    requires CellOk(c)
    ensures ParseCell(EncodeCell(c) + rest) == Got(Seen(c), rest)
  {
    hide Be32, FromBe32;
    var w := Written(c);
    var s := EncodeCell(c) + rest;
    assert s == Be32(|w|) + (w + rest);
    Be32Prefix(|w|, w + rest);
    assert s[4..4 + |w|] == w && s[4 + |w|..] == rest;
  }

  lemma {:induction false} RowRoundTrip(r: Row, rest: seq<Octet>)
    requires forall j | 0 <= j < |r| :: CellOk(r[j])
    ensures ParseRow(|r|, EncodeRow(r) + rest) == Got(SeenRow(r), rest)
  {
    hide ParseCell, EncodeCell, CellOk, Seen;
    if r == [] {
      assert EncodeRow(r) + rest == rest;
    } else {
      var tail := EncodeRow(r[1..]) + rest;
      CellRoundTrip(r[0], tail);
      RowRoundTrip(r[1..], rest);
      assert EncodeRow(r) + rest == EncodeCell(r[0]) + tail;
      assert SeenRow(r) == [Seen(r[0])] + SeenRow(r[1..]);
    }
  }

  lemma {:induction false} RowsRoundTrip(rows: seq<Row>, n: nat)
    requires n > 0 && RowsOk(rows, n)
    ensures ParseRows(n, EncodeRows(rows, n)) == Got(SeenRows(rows), [])
  {
    if rows != [] {
      var tail := EncodeRows(rows[1..], n);
      RowRoundTrip(rows[0], tail);
      RowsRoundTrip(rows[1..], n);
      assert EncodeRow(rows[0]) != [] by { assert EncodeRow(rows[0])[..4] == EncodeCell(rows[0][0])[..4]; }
      assert SeenRows(rows) == [SeenRow(rows[0])] + SeenRows(rows[1..]);
    }
  }

  /** What arrives, whatever the rows are. */
  lemma ParseSeen(types: seq<Octet>, rows: seq<Row>)
    requires |types| + 4 < U32 && RowsOk(rows, |types|)
    ensures Parse(Header(types) + EncodeRows(rows, |types|)) == Table(types, if types == [] then [] else SeenRows(rows))
  {
    hide Be32, FromBe32;
    var n := |types|;
    var body := EncodeRows(rows, n);
    var s := Header(types) + body;
    assert s == Be32(n) + (types + body);
    Be32Prefix(n, types + body);
    assert s[4..4 + n] == types && s[4 + n..] == body;
    if n > 0 { RowsRoundTrip(rows, n); } else { NoFields(rows); }
  }

  lemma {:induction false} NoFields(rows: seq<Row>)
    requires RowsOk(rows, 0)
    ensures EncodeRows(rows, 0) == []
  {
    if rows != [] { NoFields(rows[1..]); }
  }

  /** The client gets the rows back exactly when no cell is a single zero byte, and when a table
      without fields has no rows either. */
  lemma RowsArrive(types: seq<Octet>, rows: seq<Row>)
    requires |types| + 4 < U32 && RowsOk(rows, |types|)
    ensures Parse(Header(types) + EncodeRows(rows, |types|)) == Table(types, rows) <==>
            && (forall i, j | 0 <= i < |rows| && 0 <= j < |rows[i]| :: rows[i][j] != Text([0]))
            && (types == [] ==> rows == [])
  {
    hide Parse, EncodeRows, Header;
    ParseSeen(types, rows);
    if types != [] {
      if forall i, j | 0 <= i < |rows| && 0 <= j < |rows[i]| :: rows[i][j] != Text([0]) {
        forall i | 0 <= i < |rows| ensures SeenRows(rows)[i] == rows[i] { assert SeenRow(rows[i]) == rows[i]; }
        assert SeenRows(rows) == rows;
      } else {
        var i, j :| 0 <= i < |rows| && 0 <= j < |rows[i]| && rows[i][j] == Text([0]);
        assert SeenRows(rows)[i][j] == Text([]);
      }
    }
  }

  /** A cell that holds one zero byte is read back as the empty string. */
  lemma ZeroByteIsLost()
    ensures RowsOk([[Text([0])]], 1) &&
            Parse(Header([253]) + EncodeRows([[Text([0])]], 1)) == Table([253], [[Text([])]])
  {
    ParseSeen([253], [[Text([0])]]);
    assert SeenRows([[Text([0])]]) == [[Text([])]] by { assert SeenRow([Text([0])]) == [Text([])]; }
  }

  lemma PrependNone<T>(p: Piece<seq<T>>)
    ensures Prepend([], p) == p
  {
    if p.Got? { assert [] + p.value == p.value; }
  }

  lemma PrependOn<T>(xs: seq<T>, x: T, p: Piece<seq<T>>)
    ensures Prepend(xs, Prepend([x], p)) == Prepend(xs + [x], p)
  {
    if p.Got? { assert xs + ([x] + p.value) == xs + [x] + p.value; }
  }

  /** One field of a record, at a position that moves over the data. */
  method ParseField(s: seq<Octet>, start: nat) returns (ok: bool, c: Cell, rpos: nat)
    requires start <= |s|
    ensures ok ==> start + 4 <= rpos <= |s| && ParseCell(s[start..]) == Got(c, s[rpos..])
    ensures !ok ==> ParseCell(s[start..]) == Short
  {
    hide FromBe32;
    ghost var tail := s[start..];
    rpos, c := start, Null;
    if |s| - rpos < 4 { return false, c, rpos; }
    assert s[rpos..rpos + 4] == tail[..4];
    var length := FromBe32(s[rpos..rpos + 4]);
    rpos := rpos + 4;
    assert s[rpos..] == tail[4..];
    if length > 0 {
      if |s| - rpos < length { return false, c, rpos; }
      var value := s[rpos..rpos + length];
      assert value == tail[4..4 + length] && s[rpos + length..] == tail[4 + length..];
      rpos := rpos + length;
      c := Text(if value == [0] then [] else value);
    }
    ok := true;
  }

  /** The inner loop of `response.parse`. */
  method ParseRecord(n: nat, s: seq<Octet>, start: nat) returns (ok: bool, record: Row, rpos: nat)
    requires start <= |s|
    ensures ok ==> start + 4 * n <= rpos <= |s| && ParseRow(n, s[start..]) == Got(record, s[rpos..])
    ensures !ok ==> ParseRow(n, s[start..]) == Short
  {
    hide ParseCell;
    record, rpos := [], start;
    PrependNone(ParseRow(n, s[start..]));
    for i := 0 to n
      invariant start + 4 * i <= rpos <= |s|
      invariant ParseRow(n, s[start..]) == Prepend(record, ParseRow(n - i, s[rpos..]))
    {
      var got, c, next := ParseField(s, rpos);
      if !got { return false, record, rpos; }
      PrependOn(record, c, ParseRow(n - i - 1, s[next..]));
      record, rpos := record + [c], next;
    }
    assert record + [] == record;
    ok := true;
  }

  /** `response.parse` */
  method ParseResponse(s: seq<Octet>) returns (r: Parsed)
    ensures r == Parse(s)
  {
    hide FromBe32, ParseRow;
    if |s| < 4 { return Broken; }
    var n := FromBe32(s[..4]);
    if |s| - 4 < n { return Broken; }
    var types, rpos := s[4..4 + n], 4 + n;
    var records: seq<Row> := [];
    if n > 0 { PrependNone(ParseRows(n, s[rpos..])); }
    while rpos < |s|
      invariant rpos <= |s|
      invariant n == 0 ==> rpos == 4
      invariant n > 0 ==> ParseRows(n, s[4 + n..]) == Prepend(records, ParseRows(n, s[rpos..]))
      invariant n == 0 ==> records == []
    {
      if n == 0 { return Endless; }
      var ok, record, next := ParseRecord(n, s, rpos);
      if !ok { return Broken; }
      PrependOn(records, record, ParseRows(n, s[next..]));
      records := records + [record];
      rpos := next;
    }
    assert records + [] == records;
    r := Table(types, records);
  }

  datatype Received = Answer(parsed: Parsed) | Refused(code: nat) | Unfinished

  /** `do_reponse`: packets are collected until one says that it is the last. */
  method DoResponse(packets: seq<Packet>) returns (r: Received)
    ensures forall n | 0 <= n < |packets| ::
              (forall i | 0 <= i < n :: packets[i].code == STATUS_ACCEPT) && packets[n].code == STATUS_OK ==>
                r == Answer(Parse(Payloads(packets[..n + 1])))
    ensures forall n | 0 <= n < |packets| ::
              (forall i | 0 <= i < n :: packets[i].code == STATUS_ACCEPT) &&
                packets[n].code !in {STATUS_ACCEPT, STATUS_OK} ==>
                r == Refused(packets[n].code)
  {
    hide Parse, Payloads;
    var buf: seq<Octet>, k := [], 0;
    assert packets[..0] == [];
    NoPayload();
    while k < |packets|
      invariant k <= |packets| && buf == Payloads(packets[..k])
      invariant forall i | 0 <= i < k :: packets[i].code == STATUS_ACCEPT
    {
      var p := packets[k];
      PayloadsSnoc(packets[..k], p);
      assert packets[..k + 1] == packets[..k] + [p];
      if p.code == STATUS_ACCEPT {
        buf := buf + p.payload;
      } else if p.code == STATUS_OK {
        buf := buf + p.payload;
        var parsed := ParseResponse(buf);
        return Answer(parsed);
      } else {
        return Refused(p.code);
      }
      k := k + 1;
    }
    r := Unfinished;
  }

  lemma NoPayload()
    ensures Payloads([]) == []
  {
  }

  /** Server and client together, for any rows and any buffer size. */
  method Query(types: seq<Octet>, rows: seq<Row>, buffSize: nat) returns (r: Received)
    requires |types| + 4 < U32 && buffSize < U32 && RowsOk(rows, |types|)
    ensures r == Answer(Table(types, if types == [] then [] else SeenRows(rows)))
  {
    hide Parse, Payloads, EncodeRows, Header;
    ghost var cap;
    var packets;
    packets, cap := Respond(types, rows, buffSize);
    r := DoResponse(packets);
    ParseSeen(types, rows);
    var n := |packets| - 1;
    assert packets[n].code == STATUS_OK && packets[..n + 1] == packets;
  }
}
