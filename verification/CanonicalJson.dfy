/**
  Canonical JSON text (canonical.py): members in strictly increasing key order, no
  insignificant space, minimal escapes.  A byte string is a Dafny string with one
  character per byte, so a JSON string holds the UTF-8 image of its text.
 */
module CanonicalJson {
  import opened Prelude
  import opened Digits

  datatype Json =
    | Null
    | Bool(b: bool)
    | Int(n: int)
    | Str(s: string)
    | Arr(items: seq<Json>)
    | Obj(members: seq<Member>)

  datatype Member = Member(key: string, value: Json)

  // ---------------------------------------------------------------- key order

  predicate Below(a: string, b: string)
    decreases |a|
  {
    b != "" && (a == "" || a[0] < b[0] || (a[0] == b[0] && Below(a[1..], b[1..])))
  }

  predicate Increasing(members: seq<Member>) {
    forall i :: 0 < i < |members| ==> Below(members[i - 1].key, members[i].key)
  }

  /** A value as `load_json_bytes` builds it and `sort_keys` prints it: one entry per key, sorted. */
  predicate Normal(v: Json) {
    match v
    case Arr(items) => forall i :: 0 <= i < |items| ==> Normal(items[i])
    case Obj(members) =>
      && Increasing(members)
      && forall i :: 0 <= i < |members| ==> Normal(members[i].value)
    case _ => true
  }

  lemma {:induction false} BelowAt(a: string, b: string, k: nat)
    requires k < |a| && k < |b| && a[..k] == b[..k] && a[k] < b[k]
    ensures Below(a, b)
    decreases k
  {
    if k > 0 {
      assert a[0] == a[..k][0] && b[0] == b[..k][0];
      assert a[1..][..k - 1] == a[..k][1..] && b[1..][..k - 1] == b[..k][1..];
      BelowAt(a[1..], b[1..], k - 1);
    }
  }

  // ---------------------------------------------------------------- printing

  function HexDigit(d: nat): char
    requires d < 16
  {
    if d < 10 then Digit(d) else ('a' as int + d - 10) as char
  }

  function EscapeChar(c: char): string {
    if c == '\"' then "\\\""
    else if c == '\\' then "\\\\"
    else if c == '\n' then "\\n"
    else if c == '\r' then "\\r"
    else if c == '\t' then "\\t"
    else if c as int == 8 then "\\b"
    else if c as int == 12 then "\\f"
    else if c < ' ' then ['\\', 'u', '0', '0', HexDigit(c as int / 16), HexDigit(c as int % 16)]
    else [c]
  }

  function Escape(s: string): string {
    if s == "" then "" else EscapeChar(s[0]) + Escape(s[1..])
  }

  function Quote(s: string): string {
    "\"" + Escape(s) + "\""
  }

  function EncodeScalar(v: Json): string
    requires !v.Arr? && !v.Obj?
  {
    match v
    case Null => "null"
    case Bool(b) => if b then "true" else "false"
    case Int(n) => if n < 0 then "-" + Decimal(-n) else Decimal(n)
    case Str(s) => Quote(s)
  }

  /** `canonical_bytes`. */
  function Encode(v: Json): string
    decreases v, 1
  {
    match v
    case Arr(items) => "[" + EncodeItems(items) + "]"
    case Obj(members) => "{" + EncodeMembers(members) + "}"
    case _ => EncodeScalar(v)
  }

  function EncodeItems(items: seq<Json>): string
    decreases items, 0
  {
    if items == [] then ""
    else if |items| == 1 then Encode(items[0])
    else Encode(items[0]) + "," + EncodeItems(items[1..])
  }

  function EncodeMembers(members: seq<Member>): string
    decreases members, 0
  {
    if members == [] then ""
    else
      var first := EncodeMember(members[0]);
      if |members| == 1 then first else first + "," + EncodeMembers(members[1..])
  }

  function EncodeMember(m: Member): string
    decreases m, 2
  {
    Quote(m.key) + ":" + Encode(m.value)
  }

  // ---------------------------------------------------------------- reading

  function HexValue(c: char): Option<nat> {
    if IsDigit(c) then Some(c as int - '0' as int)
    else if 'a' <= c <= 'f' then Some(c as int - 'a' as int + 10)
    else None
  }

  /** The escape that starts with a backslash at t[0]: the character it denotes and its length. */
  function Unescape(t: string): (r: Option<(char, nat)>)
    ensures r.Some? ==> 2 <= r.value.1 <= |t|
  {
    if |t| < 2 then None
    else if t[1] == '\"' || t[1] == '\\' then Some((t[1], 2))
    else if t[1] == 'n' then Some(('\n', 2))
    else if t[1] == 'r' then Some(('\r', 2))
    else if t[1] == 't' then Some(('\t', 2))
    else if t[1] == 'b' then Some((8 as char, 2))
    else if t[1] == 'f' then Some((12 as char, 2))
    else if |t| < 6 || t[1] != 'u' || t[2] != '0' || t[3] != '0' then None
    else
      match (HexValue(t[4]), HexValue(t[5]))
      case (Some(hi), Some(lo)) => Some(((hi * 16 + lo) as char, 6))
      case _ => None
  }

  /** The rest of a string literal after its opening quote. */
  function ReadChars(t: string): (r: Option<(string, string)>)
    ensures r.Some? ==> |r.value.1| < |t|
    decreases |t|
  {
    if t == "" || t[0] < ' ' then None
    else if t[0] == '\"' then Some(("", t[1..]))
    else if t[0] == '\\' then
      match Unescape(t)
      case None => None
      case Some(e) =>
        match ReadChars(t[e.1..])
        case None => None
        case Some(r) => Some(([e.0] + r.0, r.1))
    else
      match ReadChars(t[1..])
      case None => None
      case Some(r) => Some(([t[0]] + r.0, r.1))
  }

  function ReadDigits(t: string): (r: Option<(nat, string)>)
    ensures r.Some? ==> |r.value.1| < |t|
  {
    var n := SpanDigits(t);
    if n == 0 then None else Some((NumberOf(t[..n]), t[n..]))
  }

  /** A literal, number or string. */
  function ReadScalar(t: string): (r: Option<(Json, string)>)
    requires t != ""
    ensures r.Some? ==> |r.value.1| < |t|
  {
    if t[0] == 'n' then if "null" <= t then Some((Null, t[4..])) else None
    else if t[0] == 't' then if "true" <= t then Some((Bool(true), t[4..])) else None
    else if t[0] == 'f' then if "false" <= t then Some((Bool(false), t[5..])) else None
    else if t[0] == '\"' then
      match ReadChars(t[1..])
      case None => None
      case Some(r) => Some((Str(r.0), r.1))
    else
      match ReadDigits(if t[0] == '-' then t[1..] else t)
      case None => None
      case Some(r) => Some((Int(if t[0] == '-' then 0 - r.0 else r.0), r.1))
  }

  function ReadValue(t: string): (r: Option<(Json, string)>)
    ensures r.Some? ==> |r.value.1| < |t|
    decreases |t|, 1
  {
    if t == "" then None
    else if t[0] == '[' then
      if "[]" <= t then Some((Arr([]), t[2..]))
      else
        match ReadItems(t[1..])
        case None => None
        case Some(r) => Some((Arr(r.0), r.1))
    else if t[0] == '{' then
      if "{}" <= t then Some((Obj([]), t[2..]))
      else
        match ReadMembers(t[1..])
        case None => None
        case Some(r) => Some((Obj(r.0), r.1))
    else ReadScalar(t)
  }

  function ReadItems(t: string): (r: Option<(seq<Json>, string)>)
    ensures r.Some? ==> |r.value.1| < |t|
    decreases |t|, 2
  {
    match ReadValue(t)
    case None => None
    case Some(first) =>
      var rest := first.1;
      if rest == "" then None
      else if rest[0] == ']' then Some(([first.0], rest[1..]))
      else if rest[0] != ',' then None
      else
        match ReadItems(rest[1..])
        case None => None
        case Some(r) => Some(([first.0] + r.0, r.1))
  }

  function ReadMember(t: string): (r: Option<(Member, string)>)
    ensures r.Some? ==> |r.value.1| < |t|
    decreases |t|, 2
  {
    if t == "" || t[0] != '\"' then None
    else
      match ReadChars(t[1..])
      case None => None
      case Some(key) =>
        if key.1 == "" || key.1[0] != ':' then None
        else
          match ReadValue(key.1[1..])
          case None => None
          case Some(value) => Some((Member(key.0, value.0), value.1))
  }

  function ReadMembers(t: string): (r: Option<(seq<Member>, string)>)
    ensures r.Some? ==> |r.value.1| < |t|
    decreases |t|, 3
  {
    match ReadMember(t)
    case None => None
    case Some(first) =>
      var rest := first.1;
      if rest == "" then None
      else if rest[0] == '}' then Some(([first.0], rest[1..]))
      else if rest[0] != ',' then None
      else
        match ReadMembers(rest[1..])
        case None => None
        case Some(r) => Some(([first.0] + r.0, r.1))
  }

  /** `require_canonical_document` without the optional final line feed: read, then compare with the printed form. */
  function Document(t: string): (r: Option<Json>)
    ensures r.Some? ==> Normal(r.value) && Encode(r.value) == t
  {
    match ReadValue(t)
    case Some((v, rest)) => if rest == "" && Normal(v) && Encode(v) == t then Some(v) else None
    case None => None
  }

  // ---------------------------------------------------------------- printed numbers read back

  lemma {:induction false} ReadDecimal(n: nat, rest: string)
    requires rest == "" || !IsDigit(rest[0])
    ensures ReadDigits(Decimal(n) + rest) == Some((n, rest))
  {
    DecimalRead(n);
    SpanOf(Decimal(n), rest);
    assert (Decimal(n) + rest)[..|Decimal(n)|] == Decimal(n);
    assert (Decimal(n) + rest)[|Decimal(n)|..] == rest;
  }

  // ---------------------------------------------------------------- printed strings read back

  lemma {:induction false} ReadEscaped(c: char, rest: string)
    ensures var t := EscapeChar(c) + rest;
            var tail := ReadChars(rest);
            tail.Some? ==> ReadChars(t) == Some(([c] + tail.value.0, tail.value.1))
  {
    var t := EscapeChar(c) + rest;
    assert t[|EscapeChar(c)|..] == rest;
    if c < ' ' && |EscapeChar(c)| == 6 {
      var hi, lo := c as int / 16, c as int % 16;
      assert HexValue(HexDigit(hi)) == Some(hi) && HexValue(HexDigit(lo)) == Some(lo);
      assert Unescape(t) == Some((c, 6));
    }
  }

  lemma {:induction false} ReadQuoted(s: string, rest: string)
    ensures ReadChars(Escape(s) + "\"" + rest) == Some((s, rest))
  {
    var t := Escape(s) + "\"" + rest;
    if s == "" {
      assert t == "\"" + rest;
    } else {
      var tail := Escape(s[1..]) + "\"" + rest;
      assert t == EscapeChar(s[0]) + tail;
      ReadQuoted(s[1..], rest);
      ReadEscaped(s[0], tail);
      assert s == [s[0]] + s[1..];
    }
  }

  // ---------------------------------------------------------------- printed values read back

  lemma {:induction false} ReadNumber(t: string, d: nat, rest: string)
    requires t != "" && IsDigit(t[0]) && ReadDigits(t) == Some((d, rest))
    ensures ReadScalar(t) == Some((Int(d), rest))
    ensures ReadScalar("-" + t) == Some((Int(0 - d), rest))
  {
    assert ("-" + t)[1..] == t;
  }

  lemma {:induction false} ReadEncodedInt(n: int, rest: string)
    requires rest == "" || !IsDigit(rest[0])
    ensures ReadScalar(EncodeScalar(Int(n)) + rest) == Some((Int(n), rest))
  {
    var d := if n < 0 then -n else n;
    ReadDecimal(d, rest);
    DecimalFirst(d);
    ReadNumber(Decimal(d) + rest, d, rest);
    Associative("-", Decimal(d), rest);
  }

  lemma {:induction false} ReadEncodedScalar(v: Json, rest: string)
    requires !v.Arr? && !v.Obj?
    requires rest == "" || !IsDigit(rest[0])
    ensures ReadScalar(EncodeScalar(v) + rest) == Some((v, rest))
  {
    match v
    case Null => assert ("null" + rest)[4..] == rest;
    case Bool(b) => assert ("true" + rest)[4..] == rest && ("false" + rest)[5..] == rest;
    case Int(n) => ReadEncodedInt(n, rest);
    case Str(s) =>
      assert (Quote(s) + rest)[1..] == Escape(s) + "\"" + rest;
      ReadQuoted(s, rest);
  }

  /** What printing starts with decides what reading tries. */
  lemma {:induction false} FirstOfEncoded(v: Json)
    ensures Encode(v) != "" && Encode(v)[0] != ']'
    ensures !v.Arr? && !v.Obj? ==> Encode(v)[0] != '[' && Encode(v)[0] != '{'
  {
    if v.Int? {
      DecimalFirst(if v.n < 0 then -v.n else v.n);
    }
  }

  lemma {:induction false} ReadArr(inner: string, items: seq<Json>, rest: string)
    requires ReadItems(inner) == Some((items, rest)) && inner != "" && inner[0] != ']'
    ensures ReadValue("[" + inner) == Some((Arr(items), rest))
  {
    assert ("[" + inner)[1..] == inner;
  }

  lemma {:induction false} ReadObj(inner: string, members: seq<Member>, rest: string)
    requires ReadMembers(inner) == Some((members, rest)) && inner != "" && inner[0] != '}'
    ensures ReadValue("{" + inner) == Some((Obj(members), rest))
  {
    assert ("{" + inner)[1..] == inner;
  }

  lemma {:induction false} ReadEmpty(rest: string)
    ensures ReadValue("[]" + rest) == Some((Arr([]), rest))
    ensures ReadValue("{}" + rest) == Some((Obj([]), rest))
  {
    assert ("[]" + rest)[2..] == rest && ("{}" + rest)[2..] == rest;
  }

  /** Reading a printed value gives that value and stops exactly at its end. */
  lemma {:induction false} ReadEncoded(v: Json, rest: string)
    requires rest == "" || !IsDigit(rest[0])
    ensures ReadValue(Encode(v) + rest) == Some((v, rest))
    decreases v, 2
  {
    if v.Arr? {
      ReadEncodedArr(v.items, rest);
      assert Encode(v) == "[" + EncodeItems(v.items) + "]";
    } else if v.Obj? {
      ReadEncodedObj(v.members, rest);
      assert Encode(v) == "{" + EncodeMembers(v.members) + "}";
    } else {
      ReadEncodedScalar(v, rest);
      FirstOfEncoded(v);
    }
  }

  lemma {:induction false} ReadEncodedArr(items: seq<Json>, rest: string)
    ensures ReadValue("[" + EncodeItems(items) + "]" + rest) == Some((Arr(items), rest))
    decreases items, 1
  {
    var inner := EncodeItems(items) + "]" + rest;
    assert "[" + EncodeItems(items) + "]" + rest == "[" + inner;
    if items == [] {
      ReadEmpty(rest);
      assert "[" + inner == "[]" + rest;
    } else {
      ReadEncodedItems(items, rest);
      FirstOfEncoded(items[0]);
      assert inner[0] == Encode(items[0])[0];
      ReadArr(inner, items, rest);
    }
  }

  lemma {:induction false} ReadEncodedObj(members: seq<Member>, rest: string)
    ensures ReadValue("{" + EncodeMembers(members) + "}" + rest) == Some((Obj(members), rest))
    decreases members, 1
  {
    var inner := EncodeMembers(members) + "}" + rest;
    assert "{" + EncodeMembers(members) + "}" + rest == "{" + inner;
    if members == [] {
      ReadEmpty(rest);
      assert "{" + inner == "{}" + rest;
    } else {
      ReadEncodedMembers(members, rest);
      assert inner[0] == EncodeMember(members[0])[0];
      ReadObj(inner, members, rest);
    }
  }

  lemma {:induction false} ReadItemsStep(t: string, v: Json, tail: string)
    requires ReadValue(t) == Some((v, tail)) && tail != ""
    ensures tail[0] == ']' ==> ReadItems(t) == Some(([v], tail[1..]))
    ensures tail[0] == ',' && ReadItems(tail[1..]).Some? ==>
              ReadItems(t) == Some(([v] + ReadItems(tail[1..]).value.0, ReadItems(tail[1..]).value.1))
  {
  }

  lemma {:induction false} EncodedItemsSplit(items: seq<Json>, rest: string)
    requires items != []
    ensures EncodeItems(items) + "]" + rest ==
            Encode(items[0]) + (if |items| == 1 then "]" + rest else "," + (EncodeItems(items[1..]) + "]" + rest))
  {
  }

  lemma {:induction false} LastItemRead(v: Json, rest: string)
    requires ReadValue(Encode(v) + ("]" + rest)) == Some((v, "]" + rest))
    ensures ReadItems(EncodeItems([v]) + "]" + rest) == Some(([v], rest))
  {
    EncodedItemsSplit([v], rest);
    assert ("]" + rest)[1..] == rest;
    ReadItemsStep(Encode(v) + ("]" + rest), v, "]" + rest);
  }

  lemma {:induction false} MoreItemsRead(items: seq<Json>, tail: string, rest: string)
    requires |items| > 1 && tail == EncodeItems(items[1..]) + "]" + rest && ReadItems(tail) == Some((items[1..], rest))
    requires ReadValue(Encode(items[0]) + ("," + tail)) == Some((items[0], "," + tail))
    ensures ReadItems(EncodeItems(items) + "]" + rest) == Some((items, rest))
  {
    EncodedItemsSplit(items, rest);
    assert ("," + tail)[1..] == tail && items == [items[0]] + items[1..];
    ReadItemsStep(Encode(items[0]) + ("," + tail), items[0], "," + tail);
  }

  lemma {:induction false} ReadEncodedItems(items: seq<Json>, rest: string)
    requires items != []
    ensures ReadItems(EncodeItems(items) + "]" + rest) == Some((items, rest))
    decreases items, 0
  {
    if |items| == 1 {
      assert items == [items[0]];
      ReadEncoded(items[0], "]" + rest);
      LastItemRead(items[0], rest);
    } else {
      var tail := EncodeItems(items[1..]) + "]" + rest;
      ReadEncoded(items[0], "," + tail);
      ReadEncodedItems(items[1..], rest);
      MoreItemsRead(items, tail, rest);
    }
  }

  /** The key, colon and value of one printed member are read back, leaving `after` unread. */
  lemma {:induction false} ReadEncodedMember(m: Member, after: string)
    requires after != "" && !IsDigit(after[0])
    requires ReadValue(Encode(m.value) + after) == Some((m.value, after))
    ensures ReadMember(EncodeMember(m) + after) == Some((m, after))
  {
    var t := EncodeMember(m) + after;
    var value := Encode(m.value) + after;
    assert t[1..] == Escape(m.key) + "\"" + (":" + value);
    ReadQuoted(m.key, ":" + value);
    assert (":" + value)[1..] == value;
  }

  lemma {:induction false} ReadMembersStep(t: string, m: Member, tail: string)
    requires ReadMember(t) == Some((m, tail)) && tail != ""
    ensures tail[0] == '}' ==> ReadMembers(t) == Some(([m], tail[1..]))
    ensures tail[0] == ',' && ReadMembers(tail[1..]).Some? ==>
              ReadMembers(t) == Some(([m] + ReadMembers(tail[1..]).value.0, ReadMembers(tail[1..]).value.1))
  {
  }

  lemma {:induction false} EncodedMembersSplit(members: seq<Member>, rest: string)
    requires members != []
    ensures EncodeMembers(members) + "}" + rest ==
            EncodeMember(members[0]) + (if |members| == 1 then "}" + rest else "," + (EncodeMembers(members[1..]) + "}" + rest))
  {
  }

  lemma {:induction false} ReadEncodedMembers(members: seq<Member>, rest: string)
    requires members != []
    ensures ReadMembers(EncodeMembers(members) + "}" + rest) == Some((members, rest))
    decreases members, 0
  {
    var m := members[0];
    var tail := if |members| == 1 then rest else EncodeMembers(members[1..]) + "}" + rest;
    var after := (if |members| == 1 then "}" else ",") + tail;
    assert after[1..] == tail;
    ReadEncoded(m.value, after);
    ReadEncodedMember(m, after);
    EncodedMembersSplit(members, rest);
    ReadMembersStep(EncodeMember(m) + after, m, after);
    if |members| > 1 {
      ReadEncodedMembers(members[1..], rest);
      assert members == [m] + members[1..];
    } else {
      assert members == [m];
    }
  }

  /** Every normal value is read back from its canonical text, so the text determines the value. */
  lemma {:induction false} DocumentOfEncoded(v: Json)
    requires Normal(v)
    ensures Document(Encode(v)) == Some(v)
  {
    ReadEncoded(v, "");
    assert Encode(v) + "" == Encode(v);
  }

  lemma {:induction false} EncodeInjective(v: Json, w: Json)
    requires Encode(v) == Encode(w)
    ensures v == w
  {
    ReadEncoded(v, "");
    ReadEncoded(w, "");
  }

  // ---------------------------------------------------------------- no control characters

  predicate Printable(t: string) {
    forall i :: 0 <= i < |t| ==> t[i] >= ' '
  }

  lemma {:induction false} EscapePrintable(s: string)
    ensures Printable(Escape(s))
  {
    if s != "" {
      EscapePrintable(s[1..]);
      assert Printable(EscapeChar(s[0]));
    }
  }

  /** Canonical text has no raw line feed or carriage return, whatever its strings contain. */
  lemma {:induction false} EncodePrintable(v: Json)
    ensures Printable(Encode(v))
    decreases v, 1
  {
    match v
    case Int(n) => DecimalRead(if n < 0 then -n else n);
    case Str(s) => EscapePrintable(s);
    case Arr(items) => ItemsPrintable(items);
    case Obj(members) => MembersPrintable(members);
    case _ =>
  }

  lemma {:induction false} ItemsPrintable(items: seq<Json>)
    ensures Printable(EncodeItems(items))
    decreases items, 0
  {
    if items != [] {
      EncodePrintable(items[0]);
      ItemsPrintable(items[1..]);
    }
  }

  lemma {:induction false} MembersPrintable(members: seq<Member>)
    ensures Printable(EncodeMembers(members))
    decreases members, 0
  {
    if members != [] {
      EscapePrintable(members[0].key);
      EncodePrintable(members[0].value);
      MembersPrintable(members[1..]);
    }
  }
}
