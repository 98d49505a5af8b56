/** What `read_http` accepts, as a property of the bytes alone and of where their records end. */
module HttpFraming {
  import opened Prelude
  import opened Digits
  import opened HttpMessages
  import opened HttpReader

  // ---------------------------------------------------------------- the message at the front of some bytes

  /** First line, place of the body, length of the body. */
  datatype Frame = Frame(first: string, start: nat, length: nat)

  /** A frame whose headers are `head`, four bytes past the end found in them. */
  function HeadFrame(head: string, kind: Kind): (r: Option<Frame>)
    requires |head| >= 4
    ensures r.Some? ==> r.value.start == |head|
  {
    if |head| > MAX_HEADERS then None
    else
      match ParseHeaders(head, kind)
      case None => None
      case Some(h) => Some(Frame(h.first, |head|, h.length))
  }

  function FrameOf(t: string, kind: Kind): (r: Option<Frame>)
    ensures r.Some? ==> r.value.start <= |t|
  {
    match FindEnd(t)
    case None => None
    case Some(n) => HeadFrame(t[..n + 4], kind)
  }

  predicate Complete(t: string, f: Frame) {
    f.start + f.length <= |t|
  }

  function BodyIn(t: string, f: Frame): string
    requires Complete(t, f)
  {
    t[f.start..f.start + f.length]
  }

  /** Whether a record ends exactly n bytes on. */
  predicate Boundary(src: Source, n: int)
    decreases |src.later|
  {
    if n <= |src.current| then n == |src.current|
    else src.later != [] && Boundary(Source(src.later[0], src.later[1..]), n - |src.current|)
  }

  // ---------------------------------------------------------------- places

  lemma {:induction false} EndStable(a: string, b: string)
    requires FindEnd(a).Some?
    ensures FindEnd(a + b) == FindEnd(a)
  {
    if !(AtCrlf(a) && AtCrlf(a[2..])) {
      assert (a + b)[1..] == a[1..] + b;
      EndStable(a[1..], b);
    }
  }

  lemma {:induction false} EndWithin(a: string, b: string)
    requires FindEnd(a + b).Some? && FindEnd(a + b).value + 4 <= |a|
    ensures FindEnd(a) == FindEnd(a + b)
  {
    var t := a + b;
    if !(AtCrlf(t) && AtCrlf(t[2..])) {
      assert t[1..] == a[1..] + b;
      EndWithin(a[1..], b);
    }
  }

  lemma {:induction false} ReadBoundary(src: Source, max: nat, n: int)
    requires max > 0 && Records(src.later) && Read(src, max).0 != ""
    ensures var (part, next) := Read(src, max);
            && (n >= |part| ==> Boundary(src, n) == Boundary(next, n - |part|))
            && (0 < n < |part| ==> !Boundary(src, n))
  {
    var now := if src.current == "" && src.later != [] then Source(src.later[0], src.later[1..]) else src;
    var (part, next) := Read(src, max);
    assert n > 0 ==> Boundary(src, n) == Boundary(now, n);
    assert |next.current| == |now.current| - |part| && next.later == now.later;
  }

  // ---------------------------------------------------------------- the header loop

  lemma {:induction false} HeaderLoopExact(src: Source, data: string)
    requires Records(src.later) && |data| <= MAX_HEADERS
    ensures var end := FindEnd(data + Rest(src));
            && (HeaderLoop(src, data).Some? <==> end.Some? && end.value + 4 <= MAX_HEADERS)
            && (HeaderLoop(src, data).Some? ==> FindEnd(HeaderLoop(src, data).value.data) == end)
    decreases |Rest(src)|
  {
    var t := data + Rest(src);
    if FindEnd(data).Some? {
      EndStable(data, Rest(src));
    } else if |data| >= MAX_HEADERS {
      NotYet(data, Rest(src));
    } else {
      var part, next := HeaderStep(src, data);
      Regroup(data, part, Rest(next));
      if part == "" {
        assert Rest(src) == "" && t == data;
      } else {
        HeaderLoopExact(next, data + part);
      }
    }
  }

  lemma {:induction false} NotYet(data: string, more: string)
    requires FindEnd(data).None?
    ensures FindEnd(data + more).Some? ==> FindEnd(data + more).value + 4 > |data|
  {
    if FindEnd(data + more).Some? && FindEnd(data + more).value + 4 <= |data| {
      EndWithin(data, more);
    }
  }

  lemma {:induction false} EndBehind(data: string, whole: string)
    requires data <= whole && FindEnd(data).None? && FindEnd(whole).Some?
    ensures FindEnd(whole).value + 4 > |data|
  {
    NotYet(data, whole[|data|..]);
    assert whole == data + whole[|data|..];
  }

  /** Record ends behind the headers: `m` counts from the first byte, `data` was read before. */
  predicate SameEnds(before: Source, data: string, got: Got, m: int) {
    && (m >= |got.data| ==> Boundary(before, m - |data|) == Boundary(got.src, m - |got.data|))
    && (m < |got.data| ==> !Boundary(before, m - |data|))
  }

  lemma {:induction false} SameEndsStep(src: Source, data: string, part: string, next: Source, max: nat, got: Got, m: int)
    requires max > 0 && Records(src.later) && (part, next) == Read(src, max) && part != "" && m > |data| && |data + part| <= |got.data|
    requires SameEnds(next, data + part, got, m) || (got == Got(data + part, next))
    requires m < |data + part| ==> got == Got(data + part, next)
    ensures SameEnds(src, data, got, m)
  {
    ReadBoundary(src, max, m - |data|);
  }

  lemma {:induction false} HeaderBoundary(src: Source, data: string, m: int)
    requires Records(src.later) && FindEnd(data).None? && HeaderLoop(src, data).Some?
    requires FindEnd(HeaderLoop(src, data).value.data).Some? && FindEnd(HeaderLoop(src, data).value.data).value + 4 <= m
    ensures SameEnds(src, data, HeaderLoop(src, data).value, m)
    decreases |Rest(src)|
  {
    var part, next := HeaderStep(src, data);
    var max :| 0 < max <= 4096 && (part, next) == Read(src, max);
    var got := HeaderLoop(src, data).value;
    HeaderLoopKeeps(next, data + part);
    EndBehind(data, got.data);
    if FindEnd(data + part).None? {
      EndBehind(data + part, got.data);
      HeaderBoundary(next, data + part, m);
    }
    SameEndsStep(src, data, part, next, max, got, m);
  }

  // ---------------------------------------------------------------- the body loop

  /** One turn of the body loop. */
  lemma {:induction false} BodyStep(src: Source, body: string, size: nat) returns (part: string, next: Source)
    requires Records(src.later) && |body| < size
    ensures Records(next.later) && part + Rest(next) == Rest(src) && (part == "" <==> Rest(src) == "")
    ensures exists max :: 0 < max <= 65536 && (part, next) == Read(src, max)
    ensures BodyLoop(src, body, size) == if part == "" then None else BodyLoop(next, body + part, size)
  {
    var want := size + 1 - |body|;
    var max := if want < 65536 then want else 65536;
    var got := Read(src, max);
    part, next := got.0, got.1;
    ReadKeeps(src, max);
  }

  /** The body loop ends at a record end exactly when the body is there and its last byte ends a record. */
  lemma {:induction false} BodyExact(src: Source, body: string, size: nat)
    requires Records(src.later) && |body| <= size
    ensures var r := BodyLoop(src, body, size);
            && (r.Some? && r.value.src.current == "" <==> size - |body| <= |Rest(src)| && Boundary(src, size - |body|))
            && (r.Some? ==> size - |body| <= |Rest(src)| && r.value.data == body + Rest(src)[..size - |body|]
                            && Rest(r.value.src) == Rest(src)[size - |body|..] && Records(r.value.src.later))
    decreases |Rest(src)|
  {
    if |body| == size {
      assert body + Rest(src)[..0] == body && Rest(src)[0..] == Rest(src);
    } else {
      var part, next := BodyStep(src, body, size);
      if part != "" {
        var max :| 0 < max <= 65536 && (part, next) == Read(src, max);
        ReadBoundary(src, max, size - |body|);
        if |body + part| <= size {
          BodyExact(next, body + part, size);
          if BodyLoop(next, body + part, size).Some? {
            BodyGlue(src, next, body, part, size);
          }
        }
      }
    }
  }

  lemma {:induction false} BodyGlue(src: Source, next: Source, body: string, part: string, size: nat)
    requires part + Rest(next) == Rest(src) && |body + part| <= size && size - |body| <= |Rest(src)|
    ensures (body + part) + Rest(next)[..size - |body + part|] == body + Rest(src)[..size - |body|]
    ensures Rest(next)[size - |body + part|..] == Rest(src)[size - |body|..]
  {
    var n := size - |body|;
    assert Rest(src)[..n] == part + Rest(next)[..n - |part|];
    assert Rest(src)[n..] == Rest(next)[n - |part|..];
  }

  // ---------------------------------------------------------------- one message

  function Start(records: seq<string>): Source {
    Source("", records)
  }

  lemma {:induction false} CoreNone(src: Source, kind: Kind)
    requires Records(src.later)
    requires HeaderLoop(src, "").None? ||
             var data := HeaderLoop(src, "").value.data;
             FindEnd(data).None? || ParseHeaders(data[..FindEnd(data).value + 4], kind).None?
    ensures Core(src, kind).None?
  {
  }

  lemma {:induction false} CoreSome(src: Source, kind: Kind, got: Got, n: nat, head: Head)
    requires Records(src.later) && HeaderLoop(src, "") == Some(got) && Records(got.src.later)
    requires FindEnd(got.data) == Some(n) && ParseHeaders(got.data[..n + 4], kind) == Some(head)
    ensures Core(src, kind) == Whole(head.first, BodyLoop(got.src, got.data[n + 4..], head.length))
  {
  }

  /** What the two loops and the checks between them accept, and what they leave. */
  predicate CoreSays(t: string, f: Option<Frame>, src: Source, r: Option<(Message, Source)>) {
    match r
    case None => f.None? || !Complete(t, f.value) || !Boundary(src, f.value.start + f.value.length)
    case Some((message, rest)) =>
      && f.Some? && Complete(t, f.value) && Boundary(src, f.value.start + f.value.length)
      && message == Message(f.value.first, BodyIn(t, f.value)) && Rest(rest) == t[f.value.start + f.value.length..]
  }

  lemma {:induction false} NoFrame(t: string, src: Source, kind: Kind)
    requires FindEnd(t).None? || FindEnd(t).value + 4 > MAX_HEADERS || ParseHeaders(t[..FindEnd(t).value + 4], kind).None?
    ensures FrameOf(t, kind).None? && CoreSays(t, FrameOf(t, kind), src, None)
  {
  }

  /** What the body loop made of the rest. */
  predicate BodySays(t: string, got: Got, start: nat, length: nat, r: Option<Got>) {
    && (r.Some? && r.value.src.current == "" <==>
          start + length <= |t| && |got.data| <= start + length && Boundary(got.src, start + length - |got.data|))
    && (r.Some? ==> start + length <= |t| && r.value.data == t[start..start + length] && Rest(r.value.src) == t[start + length..])
  }

  lemma {:induction false} FrameAndBody(t: string, src: Source, f: Frame, got: Got, r: Option<Got>)
    requires SameEnds(src, "", got, f.start + f.length) && BodySays(t, got, f.start, f.length, r)
    ensures CoreSays(t, Some(f), src, Whole(f.first, r))
  {
    EndsAgree(t, src, got, f, r);
    if r.Some? && r.value.src.current == "" {
      SaysSome(t, src, f, r.value);
    } else {
      SaysNone(t, src, f);
    }
  }

  lemma {:induction false} EndsAgree(t: string, src: Source, got: Got, f: Frame, r: Option<Got>)
    requires SameEnds(src, "", got, f.start + f.length) && BodySays(t, got, f.start, f.length, r)
    ensures r.Some? && r.value.src.current == "" <==> Complete(t, f) && Boundary(src, f.start + f.length)
  {
  }

  lemma {:induction false} HasFrame(t: string, kind: Kind, n: nat, head: Head)
    requires FindEnd(t) == Some(n) && n + 4 <= MAX_HEADERS && ParseHeaders(t[..n + 4], kind) == Some(head)
    ensures FrameOf(t, kind) == Some(Frame(head.first, n + 4, head.length))
  {
  }

  lemma {:induction false} SaysSome(t: string, src: Source, f: Frame, all: Got)
    requires Complete(t, f) && Boundary(src, f.start + f.length)
    requires all.data == t[f.start..f.start + f.length] && Rest(all.src) == t[f.start + f.length..]
    ensures CoreSays(t, Some(f), src, Some((Message(f.first, all.data), all.src)))
  {
  }

  lemma {:induction false} SaysNone(t: string, src: Source, f: Frame)
    requires !(Complete(t, f) && Boundary(src, f.start + f.length))
    ensures CoreSays(t, Some(f), src, None)
  {
  }

  lemma {:induction false} CoreExact(records: seq<string>, kind: Kind)
    requires Records(records)
    ensures CoreSays(Concat(records), FrameOf(Concat(records), kind), Start(records), Core(Start(records), kind))
  {
    var src, t := Start(records), Concat(records);
    assert Rest(src) == t && "" + t == t;
    HeaderLoopExact(src, "");
    if HeaderLoop(src, "").None? {
      CoreNone(src, kind);
      NoFrame(t, src, kind);
    } else {
      HeaderLoopKeeps(src, "");
      CoreWithHeaders(t, src, kind, HeaderLoop(src, "").value, FindEnd(t).value);
    }
  }

  lemma {:induction false} CoreWithHeaders(t: string, src: Source, kind: Kind, got: Got, n: nat)
    requires Records(src.later) && HeaderLoop(src, "") == Some(got) && Records(got.src.later)
    requires FindEnd(t) == Some(n) && n + 4 <= MAX_HEADERS && FindEnd(got.data) == Some(n) && got.data + Rest(got.src) == t
    ensures CoreSays(t, FrameOf(t, kind), src, Core(src, kind))
  {
    assert got.data[..n + 4] == t[..n + 4];
    var head := ParseHeaders(t[..n + 4], kind);
    if head.None? {
      CoreNone(src, kind);
      NoFrame(t, src, kind);
    } else {
      CoreWithHead(t, src, kind, got, n, head.value);
    }
  }

  lemma {:induction false} EndsAndBody(t: string, src: Source, got: Got, n: nat, f: Frame)
    requires Records(src.later) && HeaderLoop(src, "") == Some(got) && Records(got.src.later)
    requires FindEnd(got.data) == Some(n) && got.data + Rest(got.src) == t && f.start == n + 4
    ensures SameEnds(src, "", got, f.start + f.length)
    ensures BodySays(t, got, f.start, f.length, BodyLoop(got.src, got.data[f.start..], f.length))
  {
    HeaderBoundary(src, "", f.start + f.length);
    BodyPart(t, got, f.start, f.length);
  }

  lemma {:induction false} FramedBody(t: string, src: Source, got: Got, n: nat, head: Head)
    requires Records(src.later) && HeaderLoop(src, "") == Some(got) && Records(got.src.later)
    requires FindEnd(got.data) == Some(n) && got.data + Rest(got.src) == t
    ensures CoreSays(t, Some(Frame(head.first, n + 4, head.length)), src,
                     Whole(head.first, BodyLoop(got.src, got.data[n + 4..], head.length)))
  {
    var f := Frame(head.first, n + 4, head.length);
    EndsAndBody(t, src, got, n, f);
    FrameAndBody(t, src, f, got, BodyLoop(got.src, got.data[n + 4..], head.length));
  }

  lemma {:induction false} CoreWithHead(t: string, src: Source, kind: Kind, got: Got, n: nat, head: Head)
    requires Records(src.later) && HeaderLoop(src, "") == Some(got) && Records(got.src.later)
    requires FindEnd(t) == Some(n) && n + 4 <= MAX_HEADERS && FindEnd(got.data) == Some(n) && got.data + Rest(got.src) == t
    requires got.data[..n + 4] == t[..n + 4] && ParseHeaders(t[..n + 4], kind) == Some(head)
    ensures CoreSays(t, FrameOf(t, kind), src, Core(src, kind))
  {
    FramedBody(t, src, got, n, head);
    CoreSome(src, kind, got, n, head);
    HasFrame(t, kind, n, head);
  }

  /** The body loop started on what the header loop read beyond the headers. */
  lemma {:induction false} BodyPart(t: string, got: Got, start: nat, length: nat)
    requires Records(got.src.later) && got.data + Rest(got.src) == t && start <= |got.data|
    ensures BodySays(t, got, start, length, BodyLoop(got.src, got.data[start..], length))
  {
    var body := got.data[start..];
    if |body| <= length {
      BodyExact(got.src, body, length);
      if length - |body| <= |Rest(got.src)| {
        var k := length - |body|;
        assert t[start..start + length] == body + Rest(got.src)[..k];
        assert t[start + length..] == Rest(got.src)[k..];
      }
    }
  }

  /** The end of all data is the end of a record. */
  lemma {:induction false} BoundaryAtEnd(src: Source)
    requires Records(src.later)
    ensures Boundary(src, |Rest(src)|)
    decreases |src.later|
  {
    if src.later != [] {
      assert Rest(src) == src.current + (src.later[0] + Concat(src.later[1..]));
      assert src.later[0] != "";
      BoundaryAtEnd(Source(src.later[0], src.later[1..]));
    }
  }

  /** The first k records of a source and what is left of the current one have n bytes. */
  predicate FirstHave(src: Source, k: nat, n: int)
    requires k <= |src.later|
  {
    |src.current| + |Concat(src.later[..k])| == n
  }

  lemma {:induction false} BoundaryToFirst(src: Source, n: int) returns (k: nat)
    requires Records(src.later) && Boundary(src, n)
    ensures k <= |src.later| && FirstHave(src, k, n)
    decreases |src.later|
  {
    if n <= |src.current| {
      k := 0;
    } else {
      var before := BoundaryToFirst(Source(src.later[0], src.later[1..]), n - |src.current|);
      k := before + 1;
      ConcatFirst(src.later, before);
    }
  }

  lemma {:induction false} FirstToBoundary(src: Source, k: nat, n: int)
    requires Records(src.later) && k <= |src.later| && FirstHave(src, k, n)
    ensures Boundary(src, n)
    decreases |src.later|
  {
    if k > 0 {
      ConcatFirst(src.later, k - 1);
      assert src.later[0] != "";
      FirstToBoundary(Source(src.later[0], src.later[1..]), k - 1, n - |src.current|);
    }
  }

  lemma {:induction false} ConcatFirst(records: seq<string>, k: nat)
    requires k < |records|
    ensures Concat(records[..k + 1]) == records[0] + Concat(records[1..][..k])
  {
    assert records[..k + 1][0] == records[0] && records[..k + 1][1..] == records[1..][..k];
  }

  // ---------------------------------------------------------------- responses

  /** What a response stream means: the message, if it is all there is and the peer closed properly. */
  function ResponseOf(t: string, closed: bool): Option<Message> {
    match FrameOf(t, Response)
    case None => None
    case Some(f) => if closed && |t| == f.start + f.length then Some(Message(f.first, BodyIn(t, f))) else None
  }

  /** Reading a response depends only on its bytes, never on how they were cut into records. */
  lemma {:induction false} ResponseIndependentOfRecords(records: seq<string>, closed: bool, buffered: bool)
    requires Records(records)
    ensures ReadHttp(Start(records), Response, closed, buffered) == ResponseOf(Concat(records), closed)
  {
    CoreExact(records, Response);
    var t := Concat(records);
    BoundaryAtEnd(Start(records));
    assert Rest(Start(records)) == t;
    var f := FrameOf(t, Response);
    if f.Some? && |t| == f.value.start + f.value.length {
      assert t[f.value.start + f.value.length..] == "";
    }
  }

  /** A response with a byte missing, a byte too many, or no proper close is refused. */
  lemma {:induction false} ResponseMustBeExact(records: seq<string>, closed: bool, buffered: bool)
    requires Records(records) && FrameOf(Concat(records), Response).Some?
    requires var f := FrameOf(Concat(records), Response).value; !closed || |Concat(records)| != f.start + f.length
    ensures ReadHttp(Start(records), Response, closed, buffered).None?
  {
    ResponseIndependentOfRecords(records, closed, buffered);
  }

  // ---------------------------------------------------------------- requests

  /** A framed request is the message if its last byte ends a record and nothing behind it had arrived. */
  function Undisturbed(t: string, f: Option<Frame>, src: Source, buffered: bool): Option<Message> {
    match f
    case None => None
    case Some(f) =>
      if Complete(t, f) && Boundary(src, f.start + f.length) && !buffered then Some(Message(f.first, BodyIn(t, f))) else None
  }

  /** What a request stream means. */
  function RequestOf(t: string, src: Source, host: string, buffered: bool): Option<Message> {
    Undisturbed(t, FrameOf(t, Request(host)), src, buffered)
  }

  /**
    A request is accepted exactly when its last byte ends a record and nothing more had arrived: bytes
    behind it are refused only if they share its last record or were already there.
   */
  lemma {:induction false} RequestAcceptedExactly(records: seq<string>, host: string, closed: bool, buffered: bool)
    requires Records(records)
    ensures ReadHttp(Start(records), Request(host), closed, buffered) == RequestOf(Concat(records), Start(records), host, buffered)
  {
    CoreExact(records, Request(host));
  }

  /** Some first records are exactly n bytes. */
  predicate EndsARecord(records: seq<string>, n: int) {
    exists k :: 0 <= k <= |records| && |Concat(records[..k])| == n
  }

  lemma {:induction false} BoundaryEndsARecord(records: seq<string>, n: int)
    requires Records(records)
    ensures Boundary(Start(records), n) <==> EndsARecord(records, n)
  {
    if Boundary(Start(records), n) {
      var k := BoundaryToFirst(Start(records), n);
      assert |Concat(records[..k])| == n;
    }
    if EndsARecord(records, n) {
      var k :| 0 <= k <= |records| && |Concat(records[..k])| == n;
      FirstToBoundary(Start(records), k, n);
    }
  }

  lemma {:induction false} EndsWithin(records: seq<string>, n: int)
    requires EndsARecord(records, n)
    ensures n <= |Concat(records)|
  {
    var k :| 0 <= k <= |records| && |Concat(records[..k])| == n;
    FirstRecords(records, k);
  }

  /** The same in terms of the records: a request is accepted when its bytes are exactly some first records. */
  lemma {:induction false} RequestEndsARecord(records: seq<string>, host: string, closed: bool, f: Frame)
    requires Records(records) && FrameOf(Concat(records), Request(host)) == Some(f)
    ensures ReadHttp(Start(records), Request(host), closed, false).Some? <==> EndsARecord(records, f.start + f.length)
  {
    RequestAcceptedExactly(records, host, closed, false);
    BoundaryEndsARecord(records, f.start + f.length);
    if EndsARecord(records, f.start + f.length) {
      EndsWithin(records, f.start + f.length);
    }
    AcceptedWhenBoundary(Concat(records), Start(records), f);
  }

  lemma {:induction false} AcceptedWhenBoundary(t: string, src: Source, f: Frame)
    ensures Undisturbed(t, Some(f), src, false).Some? <==> Complete(t, f) && Boundary(src, f.start + f.length)
  {
  }

  lemma {:induction false} FirstRecords(records: seq<string>, k: nat)
    requires k <= |records|
    ensures |Concat(records[..k])| <= |Concat(records)|
  {
    if k > 0 {
      FirstRecords(records[1..], k - 1);
      ConcatFirst(records, k - 1);
    }
  }

  lemma {:induction false} CutsDiffer(message: string, surplus: string)
    requires message != "" && surplus != ""
    ensures Concat([message, surplus]) == message + surplus == Concat([message + surplus])
    ensures Boundary(Start([message, surplus]), |message|) && !Boundary(Start([message + surplus]), |message|)
  {
    assert [message, surplus][1..] == [surplus] && [surplus][1..] == [] && [message + surplus][1..] == [];
    assert Concat([surplus]) == surplus + Concat([]);
  }

  /** So surplus is not always refused: cut at the message end, the same bytes are accepted; as one record, they are not. */
  lemma {:induction false} SurplusRequestDepends(message: string, surplus: string, host: string, f: Frame)
    requires message != "" && surplus != ""
    requires FrameOf(message, Request(host)) == Some(f) && |message| == f.start + f.length
    ensures Concat([message, surplus]) == Concat([message + surplus])
    ensures ReadHttp(Start([message, surplus]), Request(host), false, false) == Some(Message(f.first, BodyIn(message, f)))
    ensures ReadHttp(Start([message + surplus]), Request(host), false, false).None?
  {
    CutsDiffer(message, surplus);
    FrameStable(message, surplus, Request(host));
    BodyStable(message, surplus, f);
    SurplusIn([message, surplus], message, surplus, host, f);
    SurplusIn([message + surplus], message, surplus, host, f);
  }

  lemma {:induction false} UndisturbedCase(t: string, src: Source, f: Frame)
    requires Complete(t, f)
    ensures Undisturbed(t, Some(f), src, false) == if Boundary(src, f.start + f.length) then Some(Message(f.first, BodyIn(t, f))) else None
  {
  }

  lemma {:induction false} SurplusIn(records: seq<string>, message: string, surplus: string, host: string, f: Frame)
    requires Records(records) && Concat(records) == message + surplus
    requires FrameOf(message + surplus, Request(host)) == Some(f) && Complete(message + surplus, f) && |message| == f.start + f.length
    ensures ReadHttp(Start(records), Request(host), false, false) ==
            if Boundary(Start(records), |message|) then Some(Message(f.first, BodyIn(message + surplus, f))) else None
  {
    RequestAcceptedExactly(records, host, false, false);
    UndisturbedCase(message + surplus, Start(records), f);
  }

  lemma {:induction false} BodyStable(a: string, b: string, f: Frame)
    requires Complete(a, f)
    ensures Complete(a + b, f) && BodyIn(a + b, f) == BodyIn(a, f)
  {
  }

  lemma {:induction false} FrameStable(a: string, b: string, kind: Kind)
    requires FrameOf(a, kind).Some?
    ensures FrameOf(a + b, kind) == FrameOf(a, kind)
  {
    EndStable(a, b);
    SamePrefix(a, b, FindEnd(a).value + 4);
  }

  lemma {:induction false} SamePrefix(a: string, b: string, k: nat)
    requires k <= |a|
    ensures (a + b)[..k] == a[..k]
  {
  }

  // ---------------------------------------------------------------- written messages are read back

  lemma {:induction false} FrameOfJoined(lines: seq<string>, first: string, body: string, kind: Kind)
    requires lines != [] && GoodLines(lines) && |Join(lines)| + 4 <= MAX_HEADERS
    requires ParseHeaders(Join(lines) + (CRLF + CRLF), kind) == Some(Head(first, |body|))
    ensures var t := Join(lines) + (CRLF + CRLF + body);
            var f := FrameOf(t, kind);
            f.Some? && f.value.first == first && |t| == f.value.start + f.value.length && BodyIn(t, f.value) == body
  {
    EndOfMessage(lines, body);
    HeadAndBody(Join(lines), body);
  }

  lemma {:induction false} HeadAndBody(head: string, body: string)
    ensures var t := head + (CRLF + CRLF + body);
            |t| == |head| + 4 + |body| && t[..|head| + 4] == head + (CRLF + CRLF) && t[|head| + 4..] == body
            && t[|head| + 4..|head| + 4 + |body|] == body
  {
  }

  lemma {:induction false} FrameOfMessage(first: string, body: string, kind: Kind)
    requires FirstFor(first, kind) && 0 < |body| <= Limit(kind) && (kind.Request? ==> IsHost(kind.host))
    ensures HttpMessage(first, body, HostFor(kind)).Some?
    ensures var t := HttpMessage(first, body, HostFor(kind)).value;
            var f := FrameOf(t, kind);
            f.Some? && f.value.first == first && |t| == f.value.start + f.value.length && BodyIn(t, f.value) == body
  {
    FirstPlain(first, kind);
    LinesGood(first, |body|, kind);
    HeadersRead(first, |body|, kind);
    FrameOfJoined(Lines(first, |body|, HostFor(kind)), first, body, kind);
  }

  /** A written response is read back as its body, for every way of cutting it into records, even if the body holds empty lines. */
  lemma {:induction false} ResponseRoundTrip(body: string, records: seq<string>, buffered: bool)
    requires 0 < |body| <= MAX_RESPONSE && Records(records)
    requires HttpMessage(STATUS_LINE, body, None) == Some(Concat(records))
    ensures ReadHttp(Start(records), Response, true, buffered) == Some(Message(STATUS_LINE, body))
  {
    FrameOfMessage(STATUS_LINE, body, Response);
    ResponseIndependentOfRecords(records, true, buffered);
  }

  /** A written request with one of the ten fixed lines likewise, as long as nothing else has arrived. */
  lemma {:induction false} RequestRoundTrip(first: string, body: string, host: string, records: seq<string>, closed: bool)
    requires IsRequestLine(first) && 0 < |body| <= MAX_REQUEST && IsHost(host) && Records(records)
    requires HttpMessage(first, body, Some(host)) == Some(Concat(records))
    ensures ReadHttp(Start(records), Request(host), closed, false) == Some(Message(first, body))
  {
    FrameOfMessage(first, body, Request(host));
    WholeRequest(records, host, closed, FrameOf(Concat(records), Request(host)).value);
  }

  lemma {:induction false} WholeRequest(records: seq<string>, host: string, closed: bool, f: Frame)
    requires Records(records) && FrameOf(Concat(records), Request(host)) == Some(f) && |Concat(records)| == f.start + f.length
    ensures ReadHttp(Start(records), Request(host), closed, false) == Some(Message(f.first, BodyIn(Concat(records), f)))
  {
    RequestAcceptedExactly(records, host, closed, false);
    BoundaryAtEnd(Start(records));
    assert Rest(Start(records)) == Concat(records);
  }
}
