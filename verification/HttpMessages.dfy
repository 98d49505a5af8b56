/** The two fixed HTTP/1.1 messages (live_proxy_client.py): how they are written and how their headers are read. */
module HttpMessages {
  import opened Prelude
  import opened Digits
  import opened Cases

  const MAX_HEADERS := 16384
  const MAX_RESPONSE := 4194304
  const MAX_REQUEST := 16384
  const CRLF := "\r\n"

  // ---------------------------------------------------------------- writing

  predicate HostChar(c: char) {
    'A' <= c <= 'Z' || 'a' <= c <= 'z' || '0' <= c <= '9' || c == '.' || c == ':' || c == '-'
  }

  predicate IsHost(t: string) {
    1 <= |t| <= 253 && forall i :: 0 <= i < |t| ==> HostChar(t[i])
  }

  /** An ASCII line without a carriage return or a line feed. */
  predicate FirstLineOk(t: string) {
    forall i :: 0 <= i < |t| ==> t[i] != '\r' && t[i] != '\n' && t[i] < 128 as char
  }

  function Lines(first: string, length: nat, host: Option<string>): seq<string> {
    [first, "Content-Type: application/json", "Content-Length: " + Decimal(length), "Connection: close"]
    + match host case None => [] case Some(h) => ["Host: " + h]
  }

  function Join(lines: seq<string>): string {
    if lines == [] then "" else if |lines| == 1 then lines[0] else lines[0] + (CRLF + Join(lines[1..]))
  }

  /** `http_message`. */
  function HttpMessage(first: string, body: string, host: Option<string>): Option<string> {
    if !FirstLineOk(first) || (host.Some? && !IsHost(host.value)) then None
    else Some(Join(Lines(first, |body|, host)) + (CRLF + CRLF + body))
  }

  // ---------------------------------------------------------------- reading headers

  predicate AtCrlf(t: string) {
    |t| >= 2 && t[0] == '\r' && t[1] == '\n'
  }

  /** The place of the first empty line. */
  function FindEnd(t: string): (r: Option<nat>)
    ensures r.Some? ==> r.value + 4 <= |t|
  {
    if |t| < 4 then None
    else if AtCrlf(t) && AtCrlf(t[2..]) then Some(0)
    else
      match FindEnd(t[1..])
      case None => None
      case Some(n) => Some(n + 1)
  }

  /** `split(b"\r\n")`. */
  function SplitLines(t: string): (r: seq<string>)
    ensures r != []
  {
    if t == "" then [""]
    else if AtCrlf(t) then [""] + SplitLines(t[2..])
    else
      var rest := SplitLines(t[1..]);
      [[t[0]] + rest[0]] + rest[1..]
  }

  /** The place of the first ": ". */
  function FindColon(line: string): (r: Option<nat>)
    ensures r.Some? ==> r.value + 2 <= |line|
  {
    if |line| < 2 then None
    else if line[0] == ':' && line[1] == ' ' then Some(0)
    else
      match FindColon(line[1..])
      case None => None
      case Some(n) => Some(n + 1)
  }

  function LowerChar(c: char): char {
    if 'A' <= c <= 'Z' then (c as int + 32) as char else c
  }

  function LowerText(t: string): string {
    seq(|t|, i requires 0 <= i < |t| => LowerChar(t[i]))
  }

  predicate ValueOk(t: string) {
    t != "" && forall i :: 0 <= i < |t| ==> ' ' <= t[i] <= '~'
  }

  predicate KnownField(name: string) {
    name == "host" || name == "content-type" || name == "content-length" || name == "connection"
  }

  function FieldOf(line: string): Option<(string, string)> {
    match FindColon(line)
    case None => None
    case Some(n) => if line[0] == ' ' || line[0] == '\t' then None else Some((LowerText(line[..n]), line[n + 2..]))
  }

  function AddField(fields: map<string, string>, line: string): Option<map<string, string>> {
    match FieldOf(line)
    case None => None
    case Some((name, value)) =>
      if !KnownField(name) || name in fields || !ValueOk(value) then None else Some(fields[name := value])
  }

  function Fields(lines: seq<string>): Option<map<string, string>> {
    if lines == [] then Some(map[])
    else
      match Fields(lines[..|lines| - 1])
      case None => None
      case Some(fields) => AddField(fields, lines[|lines| - 1])
  }

  function Dashed(t: string): string {
    seq(|t|, i requires 0 <= i < |t| => if t[i] == '_' then '-' else LowerChar(t[i]))
  }

  function RequestLine(c: Case): string {
    "POST /v1/linux-baseline/" + Dashed(CaseName(c)) + " HTTP/1.1"
  }

  const STATUS_LINE := "HTTP/1.1 200 OK"

  predicate IsRequestLine(t: string) {
    exists c: Case :: RequestLine(c) == t
  }

  /** `0|[1-9][0-9]{0,6}`. */
  predicate IsLength(t: string) {
    && 1 <= |t| <= 7 && (forall i :: 0 <= i < |t| ==> IsDigit(t[i])) && (t[0] == '0' ==> t == "0")
  }

  datatype Kind = Response | Request(host: string)

  function Expected(kind: Kind): set<string> {
    {"content-type", "content-length", "connection"} + if kind.Request? then {"host"} else {}
  }

  function Limit(kind: Kind): nat {
    if kind.Response? then MAX_RESPONSE else MAX_REQUEST
  }

  /** What the collected fields and the first line must say; the result is the body length. */
  function Conclude(fields: map<string, string>, first: string, kind: Kind): Option<nat> {
    if fields.Keys != Expected(kind) then None
    else if fields["content-type"] != "application/json" || fields["connection"] != "close" || !IsLength(fields["content-length"]) then None
    else
      var length := NumberOf(fields["content-length"]);
      if !(0 < length <= Limit(kind)) then None
      else if (if kind.Response? then first != STATUS_LINE else !IsRequestLine(first) || fields["host"] != kind.host) then None
      else Some(length)
  }

  datatype Head = Head(first: string, length: nat)

  /** `parse_headers` on text that ends in an empty line. */
  function ParseHeaders(raw: string, kind: Kind): Option<Head>
    requires |raw| >= 4
  {
    var lines := SplitLines(raw[..|raw| - 4]);
    if |raw| > MAX_HEADERS || |lines| > 32 then None
    else
      match Fields(lines[1..])
      case None => None
      case Some(fields) =>
        match Conclude(fields, lines[0], kind)
        case None => None
        case Some(length) => Some(Head(lines[0], length))
  }

  lemma {:induction false} RefusedFields(lines: seq<string>, k: nat)
    requires k <= |lines| && Fields(lines[..k]).None?
    ensures Fields(lines).None?
  {
    if k == |lines| {
      assert lines[..k] == lines;
    } else {
      var before := lines[..|lines| - 1];
      assert before[..k] == lines[..k];
      RefusedFields(before, k);
    }
  }

  /** The loop of parse_headers over the lines behind the first. */
  method CollectFields(lines: seq<string>) returns (r: Option<map<string, string>>)
    ensures r == Fields(lines)
  {
    var fields: map<string, string> := map[];
    var i := 0;
    while i < |lines|
      invariant 0 <= i <= |lines| && Fields(lines[..i]) == Some(fields)
    {
      assert lines[..i + 1][..i] == lines[..i];
      var next := AddField(fields, lines[i]);
      if next.None? {
        RefusedFields(lines, i + 1);
        return None;
      }
      fields, i := next.value, i + 1;
    }
    assert lines[..i] == lines;
    r := Some(fields);
  }

  /** `parse_headers`. */
  method ReadHead(raw: string, kind: Kind) returns (r: Option<Head>)
    requires |raw| >= 4
    ensures r == ParseHeaders(raw, kind)
  {
    if |raw| > MAX_HEADERS {
      return None;
    }
    var lines := SplitLines(raw[..|raw| - 4]);
    if |lines| > 32 {
      return None;
    }
    var fields := CollectFields(lines[1..]);
    if fields.None? {
      return None;
    }
    var length := Conclude(fields.value, lines[0], kind);
    r := if length.None? then None else Some(Head(lines[0], length.value));
  }

  // ---------------------------------------------------------------- written lines are read back

  predicate Plain(t: string) {
    forall i :: 0 <= i < |t| ==> t[i] != '\r'
  }

  lemma {:induction false} EndAfter(line: string, rest: string)
    requires Plain(line) && FindEnd(rest).Some?
    ensures FindEnd(line + rest) == Some(|line| + FindEnd(rest).value)
  {
    if line == "" {
      assert line + rest == rest;
    } else {
      assert (line + rest)[1..] == line[1..] + rest;
      EndAfter(line[1..], rest);
    }
  }

  lemma {:induction false} EndAfterCrlf(rest: string)
    requires rest != "" && rest[0] != '\r' && FindEnd(rest).Some?
    ensures FindEnd(CRLF + rest) == Some(2 + FindEnd(rest).value)
  {
    var t := CRLF + rest;
    assert t[2..] == rest && t[1..] == "\n" + rest && t[1..][1..] == rest;
    assert FindEnd("\n" + rest) == Some(1 + FindEnd(rest).value) by {
      EndAfter("\n", rest);
    }
  }

  lemma {:induction false} EndHere(body: string)
    ensures FindEnd(CRLF + CRLF + body) == Some(0)
  {
    var t := CRLF + CRLF + body;
    assert t[2..] == CRLF + body;
  }

  predicate GoodLines(lines: seq<string>) {
    forall i :: 0 <= i < |lines| ==> lines[i] != "" && Plain(lines[i])
  }

  lemma {:induction false} JoinFirst(lines: seq<string>)
    requires lines != [] && GoodLines(lines)
    ensures Join(lines) != "" && Join(lines)[0] == lines[0][0]
  {
  }

  /** The first empty line of a message is the one behind its headers, whatever the body contains. */
  lemma {:induction false} EndOfMessage(lines: seq<string>, body: string)
    requires lines != [] && GoodLines(lines)
    ensures FindEnd(Join(lines) + (CRLF + CRLF + body)) == Some(|Join(lines)|)
  {
    var tail := CRLF + CRLF + body;
    EndHere(body);
    if |lines| == 1 {
      EndAfter(lines[0], tail);
    } else {
      var rest := Join(lines[1..]) + tail;
      EndOfMessage(lines[1..], body);
      JoinFirst(lines[1..]);
      assert rest[0] == lines[1][0];
      EndAfterCrlf(rest);
      EndAfter(lines[0], CRLF + rest);
      assert Join(lines) + tail == lines[0] + (CRLF + rest);
    }
  }

  lemma {:induction false} SplitPlain(line: string)
    requires Plain(line)
    ensures SplitLines(line) == [line]
  {
    if line != "" {
      SplitPlain(line[1..]);
      assert line == [line[0]] + line[1..];
    }
  }

  lemma {:induction false} SplitFirst(line: string, rest: string)
    requires Plain(line)
    ensures SplitLines(line + (CRLF + rest)) == [line] + SplitLines(rest)
  {
    if line == "" {
      assert line + (CRLF + rest) == CRLF + rest;
      assert (CRLF + rest)[2..] == rest;
    } else {
      var t := line + (CRLF + rest);
      assert t[1..] == line[1..] + (CRLF + rest);
      SplitFirst(line[1..], rest);
      assert line == [line[0]] + line[1..];
      assert [[t[0]] + line[1..]] + SplitLines(rest) == [line] + SplitLines(rest);
    }
  }

  lemma {:induction false} SplitJoined(lines: seq<string>)
    requires lines != [] && GoodLines(lines)
    ensures SplitLines(Join(lines)) == lines
  {
    if |lines| == 1 {
      SplitPlain(lines[0]);
    } else {
      SplitJoined(lines[1..]);
      SplitFirst(lines[0], Join(lines[1..]));
      assert lines == [lines[0]] + lines[1..];
    }
  }

  lemma {:induction false} ColonFound(name: string, value: string)
    requires forall i :: 0 <= i < |name| ==> name[i] != ':'
    ensures FindColon(name + (": " + value)) == Some(|name|)
  {
    if name == "" {
      assert name + (": " + value) == ": " + value;
    } else {
      assert (name + (": " + value))[1..] == name[1..] + (": " + value);
      ColonFound(name[1..], value);
    }
  }

  lemma {:induction false} FieldRead(name: string, value: string)
    requires name != "" && name[0] != ' ' && name[0] != '\t' && forall i :: 0 <= i < |name| ==> name[i] != ':'
    ensures FieldOf(name + (": " + value)) == Some((LowerText(name), value))
  {
    ColonFound(name, value);
    var line := name + (": " + value);
    assert line[..|name|] == name && line[|name| + 2..] == value;
  }

  lemma {:induction false} TypeField()
    ensures FieldOf("Content-Type: application/json") == Some(("content-type", "application/json"))
  {
    FieldRead("Content-Type", "application/json");
    TypeSpelled();
  }

  lemma {:induction false} TypeSpelled()
    ensures LowerText("Content-Type") == "content-type"
    ensures "Content-Type: application/json" == "Content-Type" + (": " + "application/json")
  {
  }

  lemma {:induction false} LengthField(value: string)
    ensures FieldOf("Content-Length: " + value) == Some(("content-length", value))
  {
    FieldRead("Content-Length", value);
    assert LowerText("Content-Length") == "content-length";
    assert "Content-Length: " + value == "Content-Length" + (": " + value);
  }

  lemma {:induction false} ConnectionField()
    ensures FieldOf("Connection: close") == Some(("connection", "close"))
  {
    FieldRead("Connection", "close");
    assert LowerText("Connection") == "connection";
    assert "Connection: close" == "Connection" + (": " + "close");
  }

  lemma {:induction false} HostField(host: string)
    ensures FieldOf("Host: " + host) == Some(("host", host))
  {
    FieldRead("Host", host);
    assert LowerText("Host") == "host";
    assert "Host: " + host == "Host" + (": " + host);
  }

  // ---------------------------------------------------------------- written headers are read back

  lemma {:induction false} DecimalWidth(n: nat, k: nat)
    requires k >= 1 && n < TenTo(k)
    ensures |Decimal(n)| <= k
  {
    assert TenTo(k) == 10 * TenTo(k - 1) && TenTo(0) == 1;
    if n >= 10 {
      DecimalWidth(n / 10, k - 1);
    }
  }

  lemma {:induction false} LengthPrinted(n: nat)
    requires 0 < n <= MAX_RESPONSE
    ensures IsLength(Decimal(n)) && NumberOf(Decimal(n)) == n && ValueOk(Decimal(n))
  {
    DecimalRead(n);
    assert TenTo(7) == 10000000 by {
      assert TenTo(0) == 1 && TenTo(1) == 10 && TenTo(2) == 100 && TenTo(3) == 1000;
      assert TenTo(4) == 10000 && TenTo(5) == 100000 && TenTo(6) == 1000000;
    }
    DecimalWidth(n, 7);
  }

  function FieldsOf(length: nat, host: Option<string>): map<string, string> {
    var three := map["content-type" := "application/json", "content-length" := Decimal(length), "connection" := "close"];
    match host case None => three case Some(h) => three["host" := h]
  }

  lemma {:induction false} OneMoreField(lines: seq<string>, line: string, fields: map<string, string>)
    requires Fields(lines) == Some(fields)
    ensures Fields(lines + [line]) == AddField(fields, line)
  {
    assert (lines + [line])[..|lines|] == lines;
  }

  lemma {:induction false} Added(fields: map<string, string>, line: string, name: string, value: string)
    requires FieldOf(line) == Some((name, value)) && KnownField(name) && name !in fields && ValueOk(value)
    ensures AddField(fields, line) == Some(fields[name := value])
  {
  }

  lemma {:induction false} FoldThree(a: string, b: string, c: string, f: map<string, string>, g: map<string, string>, h: map<string, string>)
    requires AddField(map[], a) == Some(f) && AddField(f, b) == Some(g) && AddField(g, c) == Some(h)
    ensures Fields([a, b, c]) == Some(h)
  {
    OneMoreField([], a, map[]);
    OneMoreField([a], b, f);
    OneMoreField([a, b], c, g);
    assert [] + [a] == [a] && [a] + [b] == [a, b] && [a, b] + [c] == [a, b, c];
  }

  lemma {:induction false} ThreeFields(length: nat)
    requires 0 < length <= MAX_RESPONSE
    ensures Fields(["Content-Type: application/json", "Content-Length: " + Decimal(length), "Connection: close"]) == Some(FieldsOf(length, None))
  {
    var f := map["content-type" := "application/json"];
    var g := f["content-length" := Decimal(length)];
    var h := g["connection" := "close"];
    TypeAdded();
    LengthAdded(length);
    ConnectionAdded(length);
    FoldThree("Content-Type: application/json", "Content-Length: " + Decimal(length), "Connection: close", f, g, h);
    assert h == FieldsOf(length, None);
  }

  lemma {:induction false} TypeKnown()
    ensures KnownField("content-type") && ValueOk("application/json")
  {
  }

  lemma {:induction false} TypeAdded()
    ensures AddField(map[], "Content-Type: application/json") == Some(map["content-type" := "application/json"])
  {
    TypeField();
    TypeKnown();
    Added(map[], "Content-Type: application/json", "content-type", "application/json");
  }

  lemma {:induction false} LengthAdded(length: nat)
    requires 0 < length <= MAX_RESPONSE
    ensures AddField(map["content-type" := "application/json"], "Content-Length: " + Decimal(length))
            == Some(map["content-type" := "application/json"]["content-length" := Decimal(length)])
  {
    LengthPrinted(length);
    LengthField(Decimal(length));
    Added(map["content-type" := "application/json"], "Content-Length: " + Decimal(length), "content-length", Decimal(length));
  }

  lemma {:induction false} ConnectionKnown()
    ensures KnownField("connection") && ValueOk("close") && "connection" != "content-type" && "connection" != "content-length"
  {
    assert |"connection"| != |"content-type"| && |"connection"| != |"content-length"|;
  }

  lemma {:induction false} ConnectionAdded(length: nat)
    ensures var g := map["content-type" := "application/json"]["content-length" := Decimal(length)];
            AddField(g, "Connection: close") == Some(g["connection" := "close"])
  {
    ConnectionField();
    ConnectionKnown();
    var g := map["content-type" := "application/json"]["content-length" := Decimal(length)];
    Added(g, "Connection: close", "connection", "close");
  }

  lemma {:induction false} HostAdded(length: nat, host: string)
    requires IsHost(host)
    ensures AddField(FieldsOf(length, None), "Host: " + host) == Some(FieldsOf(length, Some(host)))
  {
    HostField(host);
    Added(FieldsOf(length, None), "Host: " + host, "host", host);
  }

  function Three(length: nat): seq<string> {
    ["Content-Type: application/json", "Content-Length: " + Decimal(length), "Connection: close"]
  }

  lemma {:induction false} LinesAfterFirst(first: string, length: nat, host: Option<string>)
    ensures Lines(first, length, host)[1..] == Three(length) + match host case None => [] case Some(h) => ["Host: " + h]
  {
  }

  lemma {:induction false} AllFields(first: string, length: nat, host: Option<string>)
    requires 0 < length <= MAX_RESPONSE && (host.Some? ==> IsHost(host.value))
    ensures Fields(Lines(first, length, host)[1..]) == Some(FieldsOf(length, host))
  {
    ThreeFields(length);
    LinesAfterFirst(first, length, host);
    if host.Some? {
      HostAdded(length, host.value);
      OneMoreField(Three(length), "Host: " + host.value, FieldsOf(length, None));
    } else {
      assert Three(length) + [] == Three(length);
    }
  }

  /** The first lines the reader insists on. */
  predicate FirstFor(first: string, kind: Kind) {
    if kind.Response? then first == STATUS_LINE else IsRequestLine(first)
  }

  function HostFor(kind: Kind): Option<string> {
    if kind.Request? then Some(kind.host) else None
  }

  lemma {:induction false} Concluded(first: string, length: nat, kind: Kind)
    requires FirstFor(first, kind) && 0 < length <= Limit(kind)
    ensures Conclude(FieldsOf(length, HostFor(kind)), first, kind) == Some(length)
  {
    LengthPrinted(length);
    var fields := FieldsOf(length, HostFor(kind));
    assert fields.Keys == Expected(kind);
  }

  predicate UpperName(t: string) {
    0 < |t| <= 32 && forall i :: 0 <= i < |t| ==> ('A' <= t[i] <= 'Z' || t[i] == '_')
  }

  lemma {:induction false} UpperNames()
    ensures UpperName("HOST_ISOLATION_NEGATIVES") && UpperName("LINUX_TARGET_BUILD") && UpperName("DURABLE_RESTART")
  {
  }

  lemma {:induction false} MoreUpperNames()
    ensures UpperName("FULL_PREDECESSOR_REGRESSION") && UpperName("CONTROL_CONTAINER_STARTUP") && UpperName("KUBERNETES_SMOKE")
  {
  }

  lemma {:induction false} LastUpperNames()
    ensures UpperName("POSTGRES_MIGRATION_AND_RLS") && UpperName("ARBITRARY_NON_ROOT_UID")
    ensures UpperName("READ_ONLY_ROOT_FILESYSTEM") && UpperName("DEFAULT_DENY_NETWORK")
  {
  }

  lemma {:induction false} CaseNameUpper(c: Case)
    ensures UpperName(CaseName(c))
  {
    UpperNames();
    MoreUpperNames();
    LastUpperNames();
  }

  lemma {:induction false} RequestLinePlain(name: string)
    requires UpperName(name)
    ensures var first := "POST /v1/linux-baseline/" + Dashed(name) + " HTTP/1.1";
            FirstLineOk(first) && Plain(first) && 0 < |first| <= 80
  {
    DashedPlain(name);
    PlainEnds("POST /v1/linux-baseline/", Dashed(name), " HTTP/1.1");
  }

  lemma {:induction false} PlainEnds(a: string, b: string, c: string)
    requires FirstLineOk(a) && FirstLineOk(b) && FirstLineOk(c)
    ensures FirstLineOk(a + b + c)
  {
  }

  lemma {:induction false} FirstPlain(first: string, kind: Kind)
    requires FirstFor(first, kind)
    ensures FirstLineOk(first) && Plain(first) && 0 < |first| <= 80
  {
    if kind.Request? {
      var c: Case :| RequestLine(c) == first;
      CaseNameUpper(c);
      RequestLinePlain(CaseName(c));
    }
  }

  lemma {:induction false} DashedPlain(t: string)
    requires UpperName(t)
    ensures FirstLineOk(Dashed(t)) && |Dashed(t)| <= 32
  {
  }

  lemma {:induction false} LinesShort(first: string, length: nat, kind: Kind)
    requires FirstFor(first, kind) && 0 < length <= MAX_RESPONSE && (kind.Request? ==> IsHost(kind.host))
    requires GoodLines(Lines(first, length, HostFor(kind)))
    ensures |Join(Lines(first, length, HostFor(kind)))| <= 500
  {
    FirstPlain(first, kind);
    LengthPrinted(length);
    var lines := Lines(first, length, HostFor(kind));
    assert lines[0] == first && |lines[1]| == 30 && |lines[2]| <= 23 && |lines[3]| == 17;
    JoinLength(lines);
    LengthsOf(lines);
  }

  lemma {:induction false} LinesPlain(first: string, length: nat, kind: Kind)
    requires FirstFor(first, kind) && 0 < length <= MAX_RESPONSE && (kind.Request? ==> IsHost(kind.host))
    ensures GoodLines(Lines(first, length, HostFor(kind)))
  {
    FirstPlain(first, kind);
    LengthPrinted(length);
  }

  lemma {:induction false} LinesGood(first: string, length: nat, kind: Kind)
    requires FirstFor(first, kind) && 0 < length <= MAX_RESPONSE && (kind.Request? ==> IsHost(kind.host))
    ensures GoodLines(Lines(first, length, HostFor(kind)))
    ensures |Join(Lines(first, length, HostFor(kind)))| <= 500
  {
    LinesPlain(first, length, kind);
    LinesShort(first, length, kind);
  }

  function Total(lines: seq<string>): nat {
    if lines == [] then 0 else |lines[0]| + 2 + Total(lines[1..])
  }

  lemma {:induction false} JoinLength(lines: seq<string>)
    ensures |Join(lines)| <= Total(lines)
  {
    if |lines| > 1 {
      JoinLength(lines[1..]);
    }
  }

  lemma {:induction false} LengthsOf(lines: seq<string>)
    requires 4 <= |lines| <= 5
    ensures Total(lines) == |lines[0]| + |lines[1]| + |lines[2]| + |lines[3]| + 8 + if |lines| == 5 then |lines[4]| + 2 else 0
  {
    assert lines[1..][1..] == lines[2..] && lines[2..][1..] == lines[3..] && lines[3..][1..] == lines[4..];
    assert Total(lines[1..]) == |lines[1]| + 2 + Total(lines[2..]);
    assert Total(lines[2..]) == |lines[2]| + 2 + Total(lines[3..]);
    assert Total(lines[3..]) == |lines[3]| + 2 + Total(lines[4..]);
    if |lines| == 5 {
      assert lines[4..] == [lines[4]] && lines[4..][1..] == [];
    }
  }

  /** Headers written for one of the fixed first lines parse to that line and the body length. */
  lemma {:induction false} HeadersRead(first: string, length: nat, kind: Kind)
    requires FirstFor(first, kind) && 0 < length <= Limit(kind) && (kind.Request? ==> IsHost(kind.host))
    ensures ParseHeaders(Join(Lines(first, length, HostFor(kind))) + (CRLF + CRLF), kind) == Some(Head(first, length))
  {
    var lines := Lines(first, length, HostFor(kind));
    var raw := Join(lines) + (CRLF + CRLF);
    LinesGood(first, length, kind);
    SplitJoined(lines);
    assert raw[..|raw| - 4] == Join(lines);
    AllFields(first, length, HostFor(kind));
    Concluded(first, length, kind);
  }
}
