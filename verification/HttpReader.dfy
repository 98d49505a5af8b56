/** `read_http` (live_proxy_client.py): one message off a TLS stream, whatever the sizes of its records. */
module HttpReader {
  import opened Prelude
  import opened HttpMessages

  // ---------------------------------------------------------------- the stream

  /** Decrypted data not yet read: the rest of the current record, and the records behind it. */
  datatype Source = Source(current: string, later: seq<string>)

  predicate Records(later: seq<string>) {
    forall i :: 0 <= i < |later| ==> later[i] != ""
  }

  function Concat(records: seq<string>): string {
    if records == [] then "" else records[0] + Concat(records[1..])
  }

  function Rest(src: Source): string {
    src.current + Concat(src.later)
  }

  /** One `ssl.read`: at most `max` bytes, never across a record; nothing once the stream is used up. */
  function Read(src: Source, max: nat): (string, Source)
    requires max > 0
  {
    var now := if src.current == "" && src.later != [] then Source(src.later[0], src.later[1..]) else src;
    var n := if |now.current| <= max then |now.current| else max;
    (now.current[..n], Source(now.current[n..], now.later))
  }

  lemma {:induction false} ReadKeeps(src: Source, max: nat)
    requires max > 0 && Records(src.later)
    ensures var (part, next) := Read(src, max);
            && part + Rest(next) == Rest(src) && Records(next.later) && |part| <= max
            && (part == "" <==> Rest(src) == "")
  {
    var now := if src.current == "" && src.later != [] then Source(src.later[0], src.later[1..]) else src;
    assert Rest(now) == Rest(src);
    var n := if |now.current| <= max then |now.current| else max;
    assert now.current == now.current[..n] + now.current[n..];
    assert now.current[..n] + (now.current[n..] + Concat(now.later)) == now.current + Concat(now.later);
    if src.current == "" && src.later != [] {
      assert src.later[0] != "";
    }
  }

  // ---------------------------------------------------------------- the two loops

  datatype Got = Got(data: string, src: Source)

  function HeaderLoop(src: Source, data: string): Option<Got>
    requires Records(src.later)
    decreases |Rest(src)|
  {
    if FindEnd(data).Some? then Some(Got(data, src))
    else if |data| >= MAX_HEADERS then None
    else
      var room := MAX_HEADERS - |data|;
      var (part, next) := Read(src, if room < 4096 then room else 4096);
      ReadKeeps(src, if room < 4096 then room else 4096);
      if part == "" then None else HeaderLoop(next, data + part)
  }

  function BodyLoop(src: Source, body: string, size: nat): Option<Got>
    requires Records(src.later)
    decreases |Rest(src)|
  {
    if |body| > size then None
    else if |body| == size then Some(Got(body, src))
    else
      var want := size + 1 - |body|;
      var (part, next) := Read(src, if want < 65536 then want else 65536);
      ReadKeeps(src, if want < 65536 then want else 65536);
      if part == "" then None else BodyLoop(next, body + part, size)
  }

  datatype Message = Message(first: string, body: string)

  /** No decrypted byte may be left over when the body is complete. */
  function Whole(first: string, body: Option<Got>): Option<(Message, Source)> {
    match body
    case None => None
    case Some(all) => if all.src.current != "" then None else Some((Message(first, all.data), all.src))
  }

  /** Headers, body, and no byte of the last record left over. */
  function Core(src: Source, kind: Kind): Option<(Message, Source)>
    requires Records(src.later)
  {
    match HeaderLoop(src, "")
    case None => None
    case Some(got) =>
      if FindEnd(got.data).None? then None
      else
        var n := FindEnd(got.data).value;
        match ParseHeaders(got.data[..n + 4], kind)
        case None => None
        case Some(head) =>
          HeaderLoopKeeps(src, "");
          Whole(head.first, BodyLoop(got.src, got.data[n + 4..], head.length))
  }

  /**
    `read_http`.  `closed` says whether the peer ends its data with close_notify; `buffered` whether
    bytes behind the message had already arrived, undecrypted, when it was complete.
   */
  function ReadHttp(src: Source, kind: Kind, closed: bool, buffered: bool): Option<Message>
    requires Records(src.later)
  {
    match Core(src, kind)
    case None => None
    case Some((message, rest)) =>
      if kind.Response? then (if Rest(rest) == "" && closed then Some(message) else None)
      else if buffered then None else Some(message)
  }

  /** One turn of the header loop. */
  lemma {:induction false} HeaderStep(src: Source, data: string) returns (part: string, next: Source)
    requires Records(src.later) && FindEnd(data).None? && |data| < MAX_HEADERS
    ensures Records(next.later) && part + Rest(next) == Rest(src) && (part == "" <==> Rest(src) == "") && |data + part| <= MAX_HEADERS
    ensures exists max :: 0 < max <= 4096 && (part, next) == Read(src, max)
    ensures HeaderLoop(src, data) == if part == "" then None else HeaderLoop(next, data + part)
  {
    var room := MAX_HEADERS - |data|;
    var max := if room < 4096 then room else 4096;
    var got := Read(src, max);
    part, next := got.0, got.1;
    ReadKeeps(src, max);
  }

  lemma {:induction false} HeaderLoopKeeps(src: Source, data: string)
    requires Records(src.later) && HeaderLoop(src, data).Some?
    ensures var got := HeaderLoop(src, data).value;
            Records(got.src.later) && got.data + Rest(got.src) == data + Rest(src) && data <= got.data && FindEnd(got.data).Some?
    decreases |Rest(src)|
  {
    if FindEnd(data).None? {
      var part, next := HeaderStep(src, data);
      HeaderLoopKeeps(next, data + part);
      Regroup(data, part, Rest(next));
    }
  }

  lemma {:induction false} Regroup(a: string, b: string, c: string)
    ensures a + (b + c) == (a + b) + c && a <= a + b
  {
  }

  // ---------------------------------------------------------------- the object

  class Tls {
    var src: Source
    const closed: bool

    constructor (records: seq<string>, closed: bool)
      ensures src == Source("", records) && this.closed == closed
    {
      src, this.closed := Source("", records), closed;
    }

    /** None when the connection ended without close_notify. */
    method ReadSome(max: nat) returns (r: Option<string>)
      requires max > 0 && Records(src.later)
      modifies this
      ensures src == Read(old(src), max).1 && Records(src.later)
      ensures r == if Read(old(src), max).0 == "" && !closed then None else Some(Read(old(src), max).0)
    {
      ReadKeeps(src, max);
      var got := Read(src, max);
      src := got.1;
      r := if got.0 == "" && !closed then None else Some(got.0);
    }
  }

  /** The header loop: read until the empty line is there. */
  method ReadHeaders(tls: Tls) returns (r: Option<string>)
    requires Records(tls.src.later)
    modifies tls
    ensures match HeaderLoop(old(tls.src), "")
            case None => r.None?
            case Some(got) => r == Some(got.data) && tls.src == got.src && Records(tls.src.later)
  {
    var data := "";
    while FindEnd(data).None?
      invariant Records(tls.src.later) && HeaderLoop(tls.src, data) == HeaderLoop(old(tls.src), "")
      decreases |Rest(tls.src)|
    {
      if |data| >= MAX_HEADERS {
        return None;
      }
      var room := MAX_HEADERS - |data|;
      ReadKeeps(tls.src, if room < 4096 then room else 4096);
      var part := tls.ReadSome(if room < 4096 then room else 4096);
      if part.None? || part.value == "" {
        return None;
      }
      data := data + part.value;
    }
    r := Some(data);
  }

  /** The body loop: asks for one byte more than is missing, so that surplus shows. */
  method ReadBody(tls: Tls, start: string, size: nat) returns (r: Option<string>)
    requires Records(tls.src.later)
    modifies tls
    ensures match BodyLoop(old(tls.src), start, size)
            case None => r.None?
            case Some(got) => r == Some(got.data) && tls.src == got.src && Records(tls.src.later)
  {
    var body := start;
    if |body| > size {
      return None;
    }
    while |body| < size
      invariant |body| <= size && Records(tls.src.later) && BodyLoop(tls.src, body, size) == BodyLoop(old(tls.src), start, size)
      decreases |Rest(tls.src)|
    {
      var want := size + 1 - |body|;
      ReadKeeps(tls.src, if want < 65536 then want else 65536);
      var part := tls.ReadSome(if want < 65536 then want else 65536);
      if part.None? || part.value == "" {
        return None;
      }
      body := body + part.value;
      if |body| > size {
        return None;
      }
    }
    r := Some(body);
  }

  /** Up to and with the check that the TLS layer holds no further decrypted byte. */
  method ReadCore(tls: Tls, kind: Kind) returns (r: Option<Message>)
    requires Records(tls.src.later)
    modifies tls
    ensures match Core(old(tls.src), kind)
            case None => r.None?
            case Some((message, rest)) => r == Some(message) && tls.src == rest && Records(tls.src.later)
  {
    var data := ReadHeaders(tls);
    if data.None? || FindEnd(data.value).None? {
      return None;
    }
    var n := FindEnd(data.value).value;
    var head := ReadHead(data.value[..n + 4], kind);
    if head.None? {
      return None;
    }
    var body := ReadBody(tls, data.value[n + 4..], head.value.length);
    if body.None? || tls.src.current != "" {
      return None;
    }
    r := Some(Message(head.value.first, body.value));
  }

  method ReadMessage(tls: Tls, kind: Kind, buffered: bool) returns (r: Option<Message>)
    requires Records(tls.src.later)
    modifies tls
    ensures r == ReadHttp(old(tls.src), kind, tls.closed, buffered)
  {
    r := ReadCore(tls, kind);
    if r.None? {
      return None;
    }
    if kind.Response? {
      ReadKeeps(tls.src, 1);
      var surplus := tls.ReadSome(1);
      if surplus != Some("") {
        return None;
      }
    } else if buffered {
      return None;
    }
  }
}
