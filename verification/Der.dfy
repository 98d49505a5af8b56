/** The DER splitter (live_proxy_client.py, `_der_items`): definite, minimal lengths only (X.690, sections 8.1.2, 8.1.3 and 10.1). */
module Der {
  import opened Prelude

  type Byte = b: int | 0 <= b < 256

  const MAX_DER := 262144
  const MAX_ITEMS := 256

  /** One element: its tag, its content, and its whole encoding as it stood in the input. */
  datatype Row = Row(tag: Byte, content: seq<Byte>, slice: seq<Byte>)

  // ---------------------------------------------------------------- reading

  /** `int.from_bytes(raw, "big")`. */
  function BigEndian(raw: seq<Byte>): nat {
    if raw == [] then 0 else BigEndian(raw[..|raw| - 1]) * 256 + raw[|raw| - 1]
  }

  /** The length octets at an offset: the length, and how many octets it took. */
  function ReadLength(raw: seq<Byte>, offset: nat): (r: Option<(nat, nat)>)
    requires offset < |raw|
    ensures r.Some? ==> 1 <= r.value.1 && offset + r.value.1 <= |raw|
  {
    var first: int := raw[offset];
    if first < 128 then Some((first, 1))
    else
      var count := first - 128;
      if !(1 <= count <= 3) || offset + 1 + count > |raw| || raw[offset + 1] == 0 then None
      else
        var length := BigEndian(raw[offset + 1..offset + 1 + count]);
        if length < 128 then None else Some((length, 1 + count))
  }

  function ReadItem(raw: seq<Byte>, start: nat): (r: Option<Row>)
    requires start < |raw|
    ensures r.Some? ==> 2 <= |r.value.slice| && start + |r.value.slice| <= |raw| && r.value.slice == raw[start..start + |r.value.slice|]
  {
    if start + 2 > |raw| || raw[start] % 32 == 31 then None
    else
      match ReadLength(raw, start + 1)
      case None => None
      case Some((length, octets)) =>
        var offset := start + 1 + octets;
        if offset + length > |raw| then None
        else Some(Row(raw[start], raw[offset..offset + length], raw[start..offset + length]))
  }

  /** The next row, unless 256 rows were already read. */
  function NextRow(raw: seq<Byte>, offset: nat, count: nat): (r: Option<Row>)
    requires offset < |raw|
    ensures r.Some? ==> 0 < |r.value.slice| && offset + |r.value.slice| <= |raw|
  {
    if count >= MAX_ITEMS then None else ReadItem(raw, offset)
  }

  /** The rows from an offset on, when `count` rows were already read. */
  function ItemsFrom(raw: seq<Byte>, offset: nat, count: nat): Option<seq<Row>>
    requires offset <= |raw|
    decreases |raw| - offset
  {
    if offset == |raw| then Some([])
    else
      match NextRow(raw, offset, count)
      case None => None
      case Some(row) =>
        match ItemsFrom(raw, offset + |row.slice|, count + 1)
        case None => None
        case Some(rest) => Some([row] + rest)
  }

  function Items(raw: seq<Byte>): Option<seq<Row>> {
    if |raw| > MAX_DER then None else ItemsFrom(raw, 0, 0)
  }

  /** Rows already read, followed by what is still to be read. */
  function Onto(rows: seq<Row>, rest: Option<seq<Row>>): Option<seq<Row>> {
    match rest case None => None case Some(more) => Some(rows + more)
  }

  lemma {:induction false} OntoNothing(rest: Option<seq<Row>>)
    ensures Onto([], rest) == rest
  {
    if rest.Some? {
      assert [] + rest.value == rest.value;
    }
  }

  lemma {:induction false} OntoEnd(raw: seq<Byte>, rows: seq<Row>)
    ensures Onto(rows, ItemsFrom(raw, |raw|, |rows|)) == Some(rows)
  {
    assert rows + [] == rows;
  }

  lemma {:induction false} OntoMore(raw: seq<Byte>, offset: nat, rows: seq<Row>, row: Row)
    requires offset < |raw| && NextRow(raw, offset, |rows|) == Some(row)
    ensures Onto(rows, ItemsFrom(raw, offset, |rows|)) == Onto(rows + [row], ItemsFrom(raw, offset + |row.slice|, |rows| + 1))
  {
    var rest := ItemsFrom(raw, offset + |row.slice|, |rows| + 1);
    if rest.Some? {
      assert rows + ([row] + rest.value) == (rows + [row]) + rest.value;
    }
  }

  /** Having read these rows, the loop stands at an offset from which the rest is still to be read. */
  predicate StandsAt(raw: seq<Byte>, rows: seq<Row>, offset: nat) {
    offset <= |raw| && Items(raw) == Onto(rows, ItemsFrom(raw, offset, |rows|))
  }

  lemma {:induction false} StandsAtStart(raw: seq<Byte>)
    requires |raw| <= MAX_DER
    ensures StandsAt(raw, [], 0)
  {
    OntoNothing(ItemsFrom(raw, 0, 0));
  }

  lemma {:induction false} StandsAtNext(raw: seq<Byte>, rows: seq<Row>, offset: nat, row: Row)
    requires StandsAt(raw, rows, offset) && offset < |raw| && NextRow(raw, offset, |rows|) == Some(row)
    ensures StandsAt(raw, rows + [row], offset + |row.slice|)
  {
    OntoMore(raw, offset, rows, row);
  }

  lemma {:induction false} StandsStill(raw: seq<Byte>, rows: seq<Row>, offset: nat)
    requires StandsAt(raw, rows, offset) && offset < |raw| && NextRow(raw, offset, |rows|).None?
    ensures Items(raw).None?
  {
  }

  lemma {:induction false} StandsAtEnd(raw: seq<Byte>, rows: seq<Row>)
    requires StandsAt(raw, rows, |raw|)
    ensures Items(raw) == Some(rows)
  {
    OntoEnd(raw, rows);
  }

  /** `_der_items`: the offset strictly increases, row by row. */
  method DerItems(raw: seq<Byte>) returns (r: Option<seq<Row>>)
    ensures r == Items(raw)
  {
    if |raw| > MAX_DER {
      return None;
    }
    var offset := 0;
    var rows: seq<Row> := [];
    StandsAtStart(raw);
    while offset < |raw|
      invariant 0 <= offset <= |raw| && StandsAt(raw, rows, offset)
      decreases |raw| - offset
    {
      var row := NextRow(raw, offset, |rows|);
      if row.None? {
        StandsStill(raw, rows, offset);
        return None;
      }
      StandsAtNext(raw, rows, offset, row.value);
      rows, offset := rows + [row.value], offset + |row.value.slice|;
    }
    StandsAtEnd(raw, rows);
    r := Some(rows);
  }

  // ---------------------------------------------------------------- the minimal encoding

  function EncodeLength(n: nat): seq<Byte>
    requires n < 0x100_0000
  {
    if n < 128 then [n]
    else if n < 256 then [129, n]
    else if n < 65536 then [130, n / 256, n % 256]
    else [131, n / 65536, n / 256 % 256, n % 256]
  }

  datatype Item = Item(tag: Byte, content: seq<Byte>)

  predicate Encodable(i: Item) {
    i.tag % 32 != 31 && |i.content| < 0x100_0000
  }

  function EncodeItem(i: Item): seq<Byte>
    requires Encodable(i)
  {
    [i.tag] + EncodeLength(|i.content|) + i.content
  }

  predicate AllEncodable(items: seq<Item>) {
    forall k :: 0 <= k < |items| ==> Encodable(items[k])
  }

  function EncodeAll(items: seq<Item>): seq<Byte>
    requires AllEncodable(items)
  {
    if items == [] then [] else EncodeItem(items[0]) + EncodeAll(items[1..])
  }

  function ItemsIn(rows: seq<Row>): seq<Item> {
    seq(|rows|, k requires 0 <= k < |rows| => Item(rows[k].tag, rows[k].content))
  }

  function Slices(rows: seq<Row>): seq<Byte> {
    if rows == [] then [] else rows[0].slice + Slices(rows[1..])
  }

  // ---------------------------------------------------------------- lengths

  lemma {:induction false} BigEndianOf(a: Byte, b: Byte, c: Byte)
    ensures BigEndian([a]) == a
    ensures BigEndian([a, b]) == a * 256 + b
    ensures BigEndian([a, b, c]) == a * 65536 + b * 256 + c
  {
    assert [a][..0] == [] && [a, b][..1] == [a] && [a, b, c][..2] == [a, b];
  }

  lemma {:induction false} LongLengths(a: Byte, b: Byte, c: Byte)
    ensures a >= 128 ==> EncodeLength(a) == [129, a]
    ensures a > 0 ==> EncodeLength(a * 256 + b) == [130, a, b]
    ensures a > 0 ==> EncodeLength(a * 65536 + b * 256 + c) == [131, a, b, c]
  {
    assert a > 0 ==> (a * 256 + b) / 256 == a && (a * 256 + b) % 256 == b;
    var n := a * 65536 + b * 256 + c;
    assert n / 65536 == a && n / 256 == a * 256 + b && n / 256 % 256 == b && n % 256 == c;
  }

  /** Length octets are read exactly when they are the minimal encoding of the length. */
  lemma {:induction false} LengthRead(raw: seq<Byte>, offset: nat)
    requires offset < |raw| && ReadLength(raw, offset).Some?
    ensures var (n, octets) := ReadLength(raw, offset).value;
            n < 0x100_0000 && raw[offset..offset + octets] == EncodeLength(n)
  {
    var first: int := raw[offset];
    if first < 128 {
      assert raw[offset..offset + 1] == [raw[offset]];
    } else if first == 129 {
      OneOctet(raw, offset);
    } else if first == 130 {
      TwoOctets(raw, offset);
    } else {
      ThreeOctets(raw, offset);
    }
  }

  lemma {:induction false} OneOctet(raw: seq<Byte>, offset: nat)
    requires offset + 2 <= |raw| && raw[offset] == 129 && BigEndian(raw[offset + 1..offset + 2]) >= 128
    ensures BigEndian(raw[offset + 1..offset + 2]) < 0x100_0000
    ensures EncodeLength(BigEndian(raw[offset + 1..offset + 2])) == raw[offset..offset + 2]
  {
    var a := raw[offset + 1];
    assert raw[offset + 1..offset + 2] == [a] && raw[offset..offset + 2] == [129, a];
    BigEndianOf(a, 0, 0);
    LongLengths(a, 0, 0);
  }

  lemma {:induction false} TwoOctets(raw: seq<Byte>, offset: nat)
    requires offset + 3 <= |raw| && raw[offset] == 130 && raw[offset + 1] != 0
    ensures BigEndian(raw[offset + 1..offset + 3]) < 0x100_0000
    ensures EncodeLength(BigEndian(raw[offset + 1..offset + 3])) == raw[offset..offset + 3]
  {
    var a, b := raw[offset + 1], raw[offset + 2];
    assert raw[offset + 1..offset + 3] == [a, b] && raw[offset..offset + 3] == [130, a, b];
    BigEndianOf(a, b, 0);
    LongLengths(a, b, 0);
  }

  lemma {:induction false} ThreeOctets(raw: seq<Byte>, offset: nat)
    requires offset + 4 <= |raw| && raw[offset] == 131 && raw[offset + 1] != 0
    ensures BigEndian(raw[offset + 1..offset + 4]) < 0x100_0000
    ensures EncodeLength(BigEndian(raw[offset + 1..offset + 4])) == raw[offset..offset + 4]
  {
    var a, b, c := raw[offset + 1], raw[offset + 2], raw[offset + 3];
    assert raw[offset + 1..offset + 4] == [a, b, c] && raw[offset..offset + 4] == [131, a, b, c];
    BigEndianOf(a, b, c);
    LongLengths(a, b, c);
  }

  lemma {:induction false} SliceOfSlice(raw: seq<Byte>, start: nat, length: nat, a: nat, b: nat)
    requires start + length <= |raw| && a <= b <= length
    ensures raw[start..start + length][a..b] == raw[start + a..start + b]
  {
    var x, y := raw[start..start + length][a..b], raw[start + a..start + b];
    assert |x| == |y|;
    forall k | 0 <= k < |x|
      ensures x[k] == y[k]
    {
      assert x[k] == raw[start + a + k];
    }
  }

  lemma {:induction false} EncodedLengthRead(raw: seq<Byte>, offset: nat, n: nat)
    requires n < 0x100_0000 && offset + |EncodeLength(n)| <= |raw|
    requires raw[offset..offset + |EncodeLength(n)|] == EncodeLength(n)
    ensures offset < |raw| && ReadLength(raw, offset) == Some((n, |EncodeLength(n)|))
  {
    var e := EncodeLength(n);
    forall k | 0 <= k < |e|
      ensures raw[offset + k] == e[k]
    {
      assert raw[offset..offset + |e|][k] == e[k];
    }
    if |e| == 2 {
      assert raw[offset + 1..offset + 2] == [e[1]];
      BigEndianOf(e[1], 0, 0);
    } else if |e| == 3 {
      assert raw[offset + 1..offset + 3] == [e[1], e[2]];
      BigEndianOf(e[1], e[2], 0);
    } else if |e| == 4 {
      assert raw[offset + 1..offset + 4] == [e[1], e[2], e[3]];
      BigEndianOf(e[1], e[2], e[3]);
    }
  }

  // ---------------------------------------------------------------- one element

  lemma {:induction false} ThreeParts(raw: seq<Byte>, start: nat, a: nat, b: nat)
    requires start + 1 <= a <= b <= |raw|
    ensures raw[start..b] == [raw[start]] + raw[start + 1..a] + raw[a..b]
  {
  }

  lemma {:induction false} ItemRead(raw: seq<Byte>, start: nat)
    requires start < |raw| && ReadItem(raw, start).Some?
    ensures var row := ReadItem(raw, start).value;
            Encodable(Item(row.tag, row.content)) && row.slice == EncodeItem(Item(row.tag, row.content))
  {
    LengthRead(raw, start + 1);
    var row := ReadItem(raw, start).value;
    var octets := ReadLength(raw, start + 1).value.1;
    ThreeParts(raw, start, start + 1 + octets, start + |row.slice|);
  }

  lemma {:induction false} PartsOfItem(i: Item)
    requires Encodable(i)
    ensures var e, octets := EncodeItem(i), |EncodeLength(|i.content|)|;
            && |e| == 1 + octets + |i.content|
            && e[0] == i.tag && e[1..1 + octets] == EncodeLength(|i.content|) && e[1 + octets..|e|] == i.content
  {
  }

  /** The three parts of an encoded element, where they lie in the input. */
  lemma {:induction false} PartsInPlace(raw: seq<Byte>, start: nat, i: Item)
    requires Encodable(i) && start + |EncodeItem(i)| <= |raw| && raw[start..start + |EncodeItem(i)|] == EncodeItem(i)
    ensures var octets := |EncodeLength(|i.content|)|;
            && |EncodeItem(i)| == 1 + octets + |i.content| && raw[start] == i.tag
            && raw[start + 1..start + 1 + octets] == EncodeLength(|i.content|)
            && raw[start + 1 + octets..start + |EncodeItem(i)|] == i.content
  {
    var e, octets := EncodeItem(i), |EncodeLength(|i.content|)|;
    PartsOfItem(i);
    assert raw[start] == raw[start..start + |e|][0];
    SliceOfSlice(raw, start, |e|, 1, 1 + octets);
    SliceOfSlice(raw, start, |e|, 1 + octets, |e|);
  }

  lemma {:induction false} EncodedItemRead(raw: seq<Byte>, start: nat, i: Item)
    requires Encodable(i) && start + |EncodeItem(i)| <= |raw| && raw[start..start + |EncodeItem(i)|] == EncodeItem(i)
    ensures start < |raw| && ReadItem(raw, start) == Some(Row(i.tag, i.content, EncodeItem(i)))
  {
    PartsInPlace(raw, start, i);
    EncodedLengthRead(raw, start + 1, |i.content|);
  }

  // ---------------------------------------------------------------- whole inputs

  lemma {:induction false} OneMoreRow(raw: seq<Byte>, offset: nat, row: Row, rest: seq<Row>)
    requires offset + |row.slice| <= |raw| && row.slice == raw[offset..offset + |row.slice|]
    requires Encodable(Item(row.tag, row.content)) && row.slice == EncodeItem(Item(row.tag, row.content))
    requires AllEncodable(ItemsIn(rest)) && EncodeAll(ItemsIn(rest)) == raw[offset + |row.slice|..] == Slices(rest)
    ensures AllEncodable(ItemsIn([row] + rest)) && EncodeAll(ItemsIn([row] + rest)) == raw[offset..] == Slices([row] + rest)
  {
    var rows := [row] + rest;
    assert rows[1..] == rest;
    assert ItemsIn(rows) == [Item(row.tag, row.content)] + ItemsIn(rest);
    assert ItemsIn(rows)[1..] == ItemsIn(rest);
    assert raw[offset..] == row.slice + raw[offset + |row.slice|..];
  }

  lemma {:induction false} ItemsReadFrom(raw: seq<Byte>, offset: nat, count: nat)
    requires offset <= |raw| && ItemsFrom(raw, offset, count).Some?
    ensures var rows := ItemsFrom(raw, offset, count).value;
            && AllEncodable(ItemsIn(rows)) && EncodeAll(ItemsIn(rows)) == raw[offset..] == Slices(rows)
            && (rows != [] ==> count + |rows| <= MAX_ITEMS)
    decreases |raw| - offset
  {
    if offset < |raw| {
      var row := ReadItem(raw, offset).value;
      ItemRead(raw, offset);
      ItemsReadFrom(raw, offset + |row.slice|, count + 1);
      OneMoreRow(raw, offset, row, ItemsFrom(raw, offset + |row.slice|, count + 1).value);
    }
  }

  /** What the splitter accepts, re-encoded minimally, is the input again; its slices concatenate to the input. */
  lemma {:induction false} SplitThenEncode(raw: seq<Byte>)
    requires Items(raw).Some?
    ensures var rows := Items(raw).value;
            && |rows| <= MAX_ITEMS && Slices(rows) == raw
            && AllEncodable(ItemsIn(rows)) && EncodeAll(ItemsIn(rows)) == raw
  {
    ItemsReadFrom(raw, 0, 0);
    assert raw[0..] == raw;
  }

  lemma {:induction false} NextEncoded(raw: seq<Byte>, offset: nat, items: seq<Item>)
    requires offset <= |raw| && AllEncodable(items) && items != [] && raw[offset..] == EncodeAll(items)
    ensures var e := EncodeItem(items[0]);
            && offset + |e| <= |raw| && |e| > 0 && raw[offset..offset + |e|] == e
            && raw[offset + |e|..] == EncodeAll(items[1..])
  {
    var e := EncodeItem(items[0]);
    assert raw[offset..][..|e|] == e && raw[offset..][|e|..] == EncodeAll(items[1..]);
    assert raw[offset..offset + |e|] == raw[offset..][..|e|];
    assert raw[offset + |e|..] == raw[offset..][|e|..];
  }

  lemma {:induction false} RowsOfItems(i: Item, e: seq<Byte>, rest: seq<Row>, items: seq<Item>)
    requires items != [] && items[0] == i && ItemsIn(rest) == items[1..]
    ensures ItemsIn([Row(i.tag, i.content, e)] + rest) == items
  {
    assert ItemsIn([Row(i.tag, i.content, e)] + rest) == [i] + ItemsIn(rest);
  }

  /** What the splitter makes of the bytes from an offset on. */
  predicate Reads(raw: seq<Byte>, offset: nat, count: nat, rows: seq<Row>)
    requires offset <= |raw|
  {
    ItemsFrom(raw, offset, count) == Some(rows)
  }

  lemma {:induction false} FromHere(raw: seq<Byte>, offset: nat, count: nat, row: Row, rest: seq<Row>)
    requires offset < |raw| && count < MAX_ITEMS && ReadItem(raw, offset) == Some(row)
    requires offset + |row.slice| <= |raw| && Reads(raw, offset + |row.slice|, count + 1, rest)
    ensures Reads(raw, offset, count, [row] + rest)
  {
  }

  /** From an offset on the input is the encoding of these elements, and they fit the bound. */
  predicate Holds(raw: seq<Byte>, offset: nat, count: nat, items: seq<Item>) {
    offset <= |raw| && AllEncodable(items) && count + |items| <= MAX_ITEMS && raw[offset..] == EncodeAll(items)
  }

  lemma {:induction false} NothingFrom(raw: seq<Byte>, offset: nat, count: nat)
    requires Holds(raw, offset, count, [])
    ensures Reads(raw, offset, count, []) && ItemsIn([]) == []
  {
    assert |raw[offset..]| == 0;
  }

  /** Where the elements behind the first begin. */
  lemma {:induction false} RestHolds(raw: seq<Byte>, offset: nat, count: nat, items: seq<Item>) returns (next: nat)
    requires Holds(raw, offset, count, items) && items != []
    ensures Encodable(items[0]) && next == offset + |EncodeItem(items[0])| && Holds(raw, next, count + 1, items[1..])
  {
    NextEncoded(raw, offset, items);
    next := offset + |EncodeItem(items[0])|;
  }

  lemma {:induction false} FirstItemRead(raw: seq<Byte>, offset: nat, count: nat, items: seq<Item>)
    requires Holds(raw, offset, count, items) && items != []
    ensures Encodable(items[0]) && offset < |raw| && offset + |EncodeItem(items[0])| <= |raw|
    ensures ReadItem(raw, offset) == Some(Row(items[0].tag, items[0].content, EncodeItem(items[0])))
  {
    NextEncoded(raw, offset, items);
    EncodedItemRead(raw, offset, items[0]);
  }

  /** The first element is read, so its row goes in front of those of the rest. */
  lemma {:induction false} OneMoreRead(raw: seq<Byte>, offset: nat, next: nat, count: nat, items: seq<Item>, rest: seq<Row>) returns (rows: seq<Row>)
    requires Holds(raw, offset, count, items) && items != [] && Encodable(items[0]) && next == offset + |EncodeItem(items[0])| <= |raw|
    requires Reads(raw, next, count + 1, rest) && ItemsIn(rest) == items[1..]
    ensures Reads(raw, offset, count, rows) && ItemsIn(rows) == items
  {
    var row := Row(items[0].tag, items[0].content, EncodeItem(items[0]));
    FirstItemRead(raw, offset, count, items);
    rows := [row] + rest;
    FromHere(raw, offset, count, row, rest);
    RowsOfItems(items[0], row.slice, rest, items);
  }

  lemma {:induction false} EncodedReadFrom(raw: seq<Byte>, offset: nat, count: nat, items: seq<Item>) returns (rows: seq<Row>)
    requires Holds(raw, offset, count, items)
    ensures offset <= |raw| && Reads(raw, offset, count, rows) && ItemsIn(rows) == items
    decreases |items|
  {
    if items == [] {
      rows := [];
      NothingFrom(raw, offset, count);
    } else {
      var next := RestHolds(raw, offset, count, items);
      var rest := EncodedReadFrom(raw, next, count + 1, items[1..]);
      rows := OneMoreRead(raw, offset, next, count, items, rest);
    }
  }

  /** Any list of elements within the bounds, encoded, is split into exactly that list. */
  lemma {:induction false} EncodeThenSplit(items: seq<Item>)
    requires AllEncodable(items) && |items| <= MAX_ITEMS && |EncodeAll(items)| <= MAX_DER
    ensures Items(EncodeAll(items)).Some? && ItemsIn(Items(EncodeAll(items)).value) == items
  {
    var raw := EncodeAll(items);
    assert raw[0..] == raw;
    var rows := EncodedReadFrom(raw, 0, 0, items);
    assert Reads(raw, 0, 0, rows);
  }

  /** The splitter accepts exactly the encodings of such lists. */
  lemma {:induction false} AcceptsExactlyEncodings(raw: seq<Byte>)
    ensures Items(raw).Some? <==>
            |raw| <= MAX_DER && exists items :: AllEncodable(items) && |items| <= MAX_ITEMS && EncodeAll(items) == raw
  {
    if Items(raw).Some? {
      SplitThenEncode(raw);
    }
    if |raw| <= MAX_DER && exists items :: AllEncodable(items) && |items| <= MAX_ITEMS && EncodeAll(items) == raw {
      var items :| AllEncodable(items) && |items| <= MAX_ITEMS && EncodeAll(items) == raw;
      EncodeThenSplit(items);
    }
  }
}
