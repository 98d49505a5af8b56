/** Which headers are accepted, read off their lines. */
module HttpRules {
  import opened Prelude
  import opened Digits
  import opened Cases
  import opened HttpMessages

  // ---------------------------------------------------------------- the ten request lines

  /** The path of a case. */
  function PathOf(c: Case): string {
    match c
    case HOST_ISOLATION_NEGATIVES => "host-isolation-negatives"
    case LINUX_TARGET_BUILD => "linux-target-build"
    case FULL_PREDECESSOR_REGRESSION => "full-predecessor-regression"
    case CONTROL_CONTAINER_STARTUP => "control-container-startup"
    case POSTGRES_MIGRATION_AND_RLS => "postgres-migration-and-rls"
    case DURABLE_RESTART => "durable-restart"
    case ARBITRARY_NON_ROOT_UID => "arbitrary-non-root-uid"
    case READ_ONLY_ROOT_FILESYSTEM => "read-only-root-filesystem"
    case KUBERNETES_SMOKE => "kubernetes-smoke"
    case DEFAULT_DENY_NETWORK => "default-deny-network"
  }

  lemma {:induction false} IsolationDashed()
    ensures Dashed("HOST_ISOLATION_NEGATIVES") == "host-isolation-negatives"
  {
  }

  lemma {:induction false} BuildDashed()
    ensures Dashed("LINUX_TARGET_BUILD") == "linux-target-build"
  {
  }

  lemma {:induction false} RegressionDashed()
    ensures Dashed("FULL_PREDECESSOR_REGRESSION") == "full-predecessor-regression"
  {
  }

  lemma {:induction false} StartupDashed()
    ensures Dashed("CONTROL_CONTAINER_STARTUP") == "control-container-startup"
  {
  }

  lemma {:induction false} DatabaseDashed()
    ensures Dashed("POSTGRES_MIGRATION_AND_RLS") == "postgres-migration-and-rls"
  {
  }

  lemma {:induction false} RestartDashed()
    ensures Dashed("DURABLE_RESTART") == "durable-restart"
  {
  }

  lemma {:induction false} AnyUidDashed()
    ensures Dashed("ARBITRARY_NON_ROOT_UID") == "arbitrary-non-root-uid"
  {
  }

  lemma {:induction false} ReadOnlyDashed()
    ensures Dashed("READ_ONLY_ROOT_FILESYSTEM") == "read-only-root-filesystem"
  {
  }

  lemma {:induction false} SmokeDashed()
    ensures Dashed("KUBERNETES_SMOKE") == "kubernetes-smoke"
  {
  }

  lemma {:induction false} DenyAllDashed()
    ensures Dashed("DEFAULT_DENY_NETWORK") == "default-deny-network"
  {
  }

  /** Each case is requested by POST at its own path. */
  lemma {:induction false} RequestLines(c: Case)
    ensures RequestLine(c) == "POST /v1/linux-baseline/" + PathOf(c) + " HTTP/1.1"
  {
    match c
    case HOST_ISOLATION_NEGATIVES => IsolationDashed();
    case LINUX_TARGET_BUILD => BuildDashed();
    case FULL_PREDECESSOR_REGRESSION => RegressionDashed();
    case CONTROL_CONTAINER_STARTUP => StartupDashed();
    case POSTGRES_MIGRATION_AND_RLS => DatabaseDashed();
    case DURABLE_RESTART => RestartDashed();
    case ARBITRARY_NON_ROOT_UID => AnyUidDashed();
    case READ_ONLY_ROOT_FILESYSTEM => ReadOnlyDashed();
    case KUBERNETES_SMOKE => SmokeDashed();
    case DEFAULT_DENY_NETWORK => DenyAllDashed();
  }

  // ---------------------------------------------------------------- one line

  /** A header line: one of the four names in any case, a colon, a space, and a printable value. */
  ghost predicate Says(line: string, name: string, value: string) {
    exists n :: Spells(n, name) && line == n + (": " + value) && ValueOk(value)
  }

  predicate Spells(n: string, name: string) {
    LowerText(n) == name && name in {"host", "content-type", "content-length", "connection"}
  }

  /** What the loop requires of a line by itself. */
  predicate Good(line: string, name: string, value: string) {
    FieldOf(line) == Some((name, value)) && KnownField(name) && ValueOk(value)
  }

  lemma {:induction false} KnownPlain(name: string, i: nat)
    requires KnownField(name) && i < |name|
    ensures name[i] != ':' && name[i] != ' ' && name[i] != '\t'
  {
  }

  lemma {:induction false} SpelledPlain(n: string, name: string)
    requires Spells(n, name)
    ensures n != "" && n[0] != ' ' && n[0] != '\t' && forall i :: 0 <= i < |n| ==> n[i] != ':'
  {
    assert |n| == |name|;
    forall i | 0 <= i < |n|
      ensures n[i] != ':' && n[i] != ' ' && n[i] != '\t'
    {
      KnownPlain(name, i);
      assert name[i] == LowerChar(n[i]);
    }
  }

  lemma {:induction false} ColonThere(line: string)
    requires FindColon(line).Some?
    ensures var k := FindColon(line).value; line == line[..k] + (": " + line[k + 2..])
  {
    var k := FindColon(line).value;
    if k == 0 {
      assert line == ": " + line[2..];
    } else {
      ColonThere(line[1..]);
      var rest := line[1..];
      assert line == [line[0]] + rest && line[..k] == [line[0]] + rest[..k - 1] && line[k + 2..] == rest[k + 1..];
    }
  }

  lemma {:induction false} GoodExactly(line: string, name: string, value: string)
    ensures Good(line, name, value) <==> Says(line, name, value)
  {
    if Good(line, name, value) {
      ColonThere(line);
      assert Spells(line[..FindColon(line).value], name);
    }
    if Says(line, name, value) {
      var n :| Spells(n, name) && line == n + (": " + value) && ValueOk(value);
      SpelledPlain(n, name);
      FieldRead(n, value);
    }
  }

  // ---------------------------------------------------------------- all lines

  /** Some line behind the first says so. */
  ghost predicate Carries(lines: seq<string>, name: string, value: string) {
    exists i :: 0 <= i < |lines| && Says(lines[i], name, value)
  }

  /** Name and value of a line; nothing stands for a line without them. */
  function Pair(line: string): (string, string) {
    match FieldOf(line) case Some(f) => f case None => ("", "")
  }

  predicate GoodPair(p: (string, string)) {
    KnownField(p.0) && ValueOk(p.1)
  }

  predicate Distinct(pairs: seq<(string, string)>) {
    forall i, j :: 0 <= i < j < |pairs| ==> pairs[i].0 != pairs[j].0
  }

  predicate AllKnown(pairs: seq<(string, string)>) {
    forall i :: 0 <= i < |pairs| ==> GoodPair(pairs[i])
  }

  function Pairs(lines: seq<string>): (r: seq<(string, string)>)
    ensures |r| == |lines| && forall i :: 0 <= i < |lines| ==> r[i] == Pair(lines[i])
  {
    if lines == [] then [] else Pairs(lines[..|lines| - 1]) + [Pair(lines[|lines| - 1])]
  }

  /** The fields are those of the pairs. */
  predicate Collected(pairs: seq<(string, string)>, fields: map<string, string>) {
    && |fields| == |pairs|
    && (forall i :: 0 <= i < |pairs| ==> pairs[i].0 in fields && fields[pairs[i].0] == pairs[i].1)
    && (forall name :: name in fields ==> (name, fields[name]) in pairs)
  }

  lemma {:induction false} MoreCollected(pairs: seq<(string, string)>, p: (string, string), fields: map<string, string>)
    requires Collected(pairs, fields) && p.0 !in fields
    ensures Collected(pairs + [p], fields[p.0 := p.1])
  {
    var all, next := pairs + [p], fields[p.0 := p.1];
    assert next.Keys == fields.Keys + {p.0} && |next| == |next.Keys| && |fields| == |fields.Keys|;
    assert all[|pairs|] == p && forall i :: 0 <= i < |pairs| ==> all[i] == pairs[i];
  }

  lemma {:induction false} MoreDistinct(pairs: seq<(string, string)>, p: (string, string), fields: map<string, string>)
    requires Distinct(pairs) && Collected(pairs, fields)
    ensures Distinct(pairs + [p]) <==> p.0 !in fields
  {
    var all := pairs + [p];
    assert all[|pairs|] == p && forall i :: 0 <= i < |pairs| ==> all[i] == pairs[i];
    if p.0 in fields {
      var i :| 0 <= i < |pairs| && pairs[i] == (p.0, fields[p.0]);
      assert all[i].0 == all[|pairs|].0;
    }
  }

  lemma {:induction false} MoreKnown(pairs: seq<(string, string)>, p: (string, string))
    ensures AllKnown(pairs + [p]) <==> AllKnown(pairs) && GoodPair(p)
    ensures Distinct(pairs + [p]) ==> Distinct(pairs)
  {
    var all := pairs + [p];
    assert all[|pairs|] == p && forall i :: 0 <= i < |pairs| ==> all[i] == pairs[i];
  }

  lemma {:induction false} AddFieldExactly(fields: map<string, string>, line: string)
    ensures AddField(fields, line) == if GoodPair(Pair(line)) && Pair(line).0 !in fields then Some(fields[Pair(line).0 := Pair(line).1]) else None
  {
  }

  lemma {:induction false} FieldsExactly(lines: seq<string>)
    ensures Fields(lines).Some? <==> AllKnown(Pairs(lines)) && Distinct(Pairs(lines))
    ensures Fields(lines).Some? ==> Collected(Pairs(lines), Fields(lines).value)
  {
    if lines != [] {
      var before, line := lines[..|lines| - 1], lines[|lines| - 1];
      FieldsExactly(before);
      MoreKnown(Pairs(before), Pair(line));
      if Fields(before).Some? {
        AddFieldExactly(Fields(before).value, line);
        MoreDistinct(Pairs(before), Pair(line), Fields(before).value);
        if Pair(line).0 !in Fields(before).value {
          MoreCollected(Pairs(before), Pair(line), Fields(before).value);
        }
      }
    }
  }

  lemma {:induction false} SaysExactly(line: string, name: string, value: string)
    ensures Says(line, name, value) <==> Pair(line) == (name, value) && GoodPair((name, value))
  {
    GoodExactly(line, name, value);
  }

  lemma {:induction false} CarriesExactly(lines: seq<string>, name: string, value: string)
    ensures Carries(lines, name, value) <==> GoodPair((name, value)) && (name, value) in Pairs(lines)
  {
    if Carries(lines, name, value) {
      var i :| 0 <= i < |lines| && Says(lines[i], name, value);
      SaysExactly(lines[i], name, value);
      assert Pairs(lines)[i] == (name, value);
    }
    if GoodPair((name, value)) && (name, value) in Pairs(lines) {
      var i :| 0 <= i < |lines| && Pairs(lines)[i] == (name, value);
      SaysExactly(lines[i], name, value);
    }
  }

  // ---------------------------------------------------------------- the length

  lemma {:induction false} LengthExactly(t: string, n: nat)
    requires 0 < n <= MAX_RESPONSE
    ensures IsLength(t) && NumberOf(t) == n <==> t == Decimal(n)
  {
    LengthPrinted(n);
    if IsLength(t) && NumberOf(t) == n {
      DecimalOfNumber(t);
    }
  }

  // ---------------------------------------------------------------- the headers

  /** What must stand in the headers of a response or a request besides their first line, in any order. */
  ghost predicate Complete(lines: seq<string>, kind: Kind, n: nat) {
    && Carries(lines, "content-type", "application/json") && Carries(lines, "connection", "close")
    && Carries(lines, "content-length", Decimal(n)) && n > 0
    && match kind
       case Response => |lines| == 3 && n <= 4194304
       case Request(host) => |lines| == 4 && n <= 16384 && Carries(lines, "host", host)
  }

  /** The first line of a good response, or of a request for one of the cases. */
  ghost predicate Opens(first: string, kind: Kind) {
    match kind
    case Response => first == "HTTP/1.1 200 OK"
    case Request(_) => exists c: Case :: first == "POST /v1/linux-baseline/" + PathOf(c) + " HTTP/1.1"
  }

  lemma {:induction false} NamesDiffer()
    ensures "host" != "content-type" && "host" != "content-length" && "host" != "connection"
    ensures "content-type" != "content-length" && "content-type" != "connection" && "content-length" != "connection"
  {
    assert |"host"| == 4 && |"content-type"| == 12 && |"content-length"| == 14 && |"connection"| == 10;
  }

  /** The same of the collected fields. */
  predicate Match(fields: map<string, string>, kind: Kind, n: nat) {
    && fields.Keys == Expected(kind) && 0 < n <= Limit(kind)
    && fields["content-type"] == "application/json" && fields["connection"] == "close" && fields["content-length"] == Decimal(n)
    && (kind.Request? ==> fields["host"] == kind.host)
  }

  lemma {:induction false} OpensExactly(first: string, kind: Kind)
    ensures Opens(first, kind) <==> if kind.Response? then first == STATUS_LINE else IsRequestLine(first)
  {
    if kind.Request? {
      forall c: Case
        ensures RequestLine(c) == "POST /v1/linux-baseline/" + PathOf(c) + " HTTP/1.1"
      {
        RequestLines(c);
      }
    }
  }

  lemma {:induction false} ConcludeExactly(fields: map<string, string>, first: string, kind: Kind, n: nat)
    ensures Conclude(fields, first, kind) == Some(n) <==> Match(fields, kind, n) && Opens(first, kind)
  {
    OpensExactly(first, kind);
    if 0 < n <= MAX_RESPONSE && "content-length" in fields {
      LengthExactly(fields["content-length"], n);
    }
  }

  lemma {:induction false} ExpectedSize(kind: Kind)
    ensures |Expected(kind)| == if kind.Request? then 4 else 3
  {
    NamesDiffer();
  }

  predicate InPairs(pairs: seq<(string, string)>, kind: Kind, n: nat) {
    && ("content-type", "application/json") in pairs && ("connection", "close") in pairs && ("content-length", Decimal(n)) in pairs
    && (kind.Request? ==> ("host", kind.host) in pairs)
    && |pairs| == if kind.Request? then 4 else 3
  }

  lemma {:induction false} MatchedInPairs(pairs: seq<(string, string)>, fields: map<string, string>, kind: Kind, n: nat)
    requires Collected(pairs, fields) && 0 < n <= Limit(kind)
    ensures Match(fields, kind, n) ==> InPairs(pairs, kind, n)
  {
    ExpectedSize(kind);
    assert |fields.Keys| == |fields|;
  }

  lemma {:induction false} FourDistinct(pairs: seq<(string, string)>, a: (string, string), b: (string, string), c: (string, string), d: (string, string))
    requires |pairs| == 4 && a in pairs && b in pairs && c in pairs && d in pairs
    requires a.0 != b.0 && a.0 != c.0 && a.0 != d.0 && b.0 != c.0 && b.0 != d.0 && c.0 != d.0
    ensures Distinct(pairs) && forall i :: 0 <= i < 4 ==> pairs[i] == a || pairs[i] == b || pairs[i] == c || pairs[i] == d
  {
    var i :| 0 <= i < 4 && pairs[i] == a;
    var j :| 0 <= j < 4 && pairs[j] == b;
    var k :| 0 <= k < 4 && pairs[k] == c;
    var l :| 0 <= l < 4 && pairs[l] == d;
    forall x | 0 <= x < 4
      ensures pairs[x] == a || pairs[x] == b || pairs[x] == c || pairs[x] == d
    {
      FourPlaces(i, j, k, l, x);
    }
    forall x, y | 0 <= x < y < 4
      ensures pairs[x].0 != pairs[y].0
    {
      PlacesDiffer(pairs, i, j, k, l, x, y);
    }
  }

  lemma {:induction false} FourPlaces(i: nat, j: nat, k: nat, l: nat, x: nat)
    requires i < 4 && j < 4 && k < 4 && l < 4 && x < 4
    requires i != j && i != k && i != l && j != k && j != l && k != l
    ensures x == i || x == j || x == k || x == l
  {
  }

  lemma {:induction false} PlacesDiffer(pairs: seq<(string, string)>, i: nat, j: nat, k: nat, l: nat, x: nat, y: nat)
    requires |pairs| == 4 && i < 4 && j < 4 && k < 4 && l < 4 && x < y < 4
    requires pairs[i].0 != pairs[j].0 && pairs[i].0 != pairs[k].0 && pairs[i].0 != pairs[l].0
    requires pairs[j].0 != pairs[k].0 && pairs[j].0 != pairs[l].0 && pairs[k].0 != pairs[l].0
    ensures pairs[x].0 != pairs[y].0
  {
    FourPlaces(i, j, k, l, x);
    FourPlaces(i, j, k, l, y);
  }

  lemma {:induction false} ThreeDistinct(pairs: seq<(string, string)>, a: (string, string), b: (string, string), c: (string, string))
    requires |pairs| == 3 && a in pairs && b in pairs && c in pairs && a.0 != b.0 && a.0 != c.0 && b.0 != c.0
    ensures Distinct(pairs) && forall i :: 0 <= i < 3 ==> pairs[i] == a || pairs[i] == b || pairs[i] == c
  {
    var i :| 0 <= i < 3 && pairs[i] == a;
    var j :| 0 <= j < 3 && pairs[j] == b;
    var k :| 0 <= k < 3 && pairs[k] == c;
  }

  lemma {:induction false} KnownPairs(n: nat)
    requires 0 < n <= MAX_RESPONSE
    ensures GoodPair(("content-type", "application/json")) && GoodPair(("connection", "close")) && GoodPair(("content-length", Decimal(n)))
  {
    TypeKnown();
    ConnectionKnown();
    LengthPrinted(n);
  }

  lemma {:induction false} InPairsDistinct(pairs: seq<(string, string)>, kind: Kind, n: nat)
    requires InPairs(pairs, kind, n) && 0 < n <= Limit(kind) && (kind.Request? ==> ValueOk(kind.host))
    ensures Distinct(pairs) && AllKnown(pairs)
    ensures forall i :: 0 <= i < |pairs| ==> pairs[i].0 in Expected(kind)
  {
    NamesDiffer();
    KnownPairs(n);
    if kind.Request? {
      FourDistinct(pairs, ("content-type", "application/json"), ("connection", "close"), ("content-length", Decimal(n)), ("host", kind.host));
    } else {
      ThreeDistinct(pairs, ("content-type", "application/json"), ("connection", "close"), ("content-length", Decimal(n)));
    }
  }

  lemma {:induction false} PairsMatch(pairs: seq<(string, string)>, fields: map<string, string>, kind: Kind, n: nat)
    requires Collected(pairs, fields) && InPairs(pairs, kind, n) && 0 < n <= Limit(kind)
    requires forall i :: 0 <= i < |pairs| ==> pairs[i].0 in Expected(kind)
    ensures Match(fields, kind, n)
  {
    assert forall p :: p in pairs ==> p.0 in fields && fields[p.0] == p.1;
    forall name | name in fields
      ensures name in Expected(kind)
    {
      var i :| 0 <= i < |pairs| && pairs[i] == (name, fields[name]);
    }
    assert fields.Keys == Expected(kind);
  }

  lemma {:induction false} CompleteExactly(lines: seq<string>, kind: Kind, n: nat)
    requires 0 < n <= Limit(kind)
    ensures Complete(lines, kind, n) <==> InPairs(Pairs(lines), kind, n) && (kind.Request? ==> ValueOk(kind.host))
  {
    KnownPairs(n);
    CarriesExactly(lines, "content-type", "application/json");
    CarriesExactly(lines, "connection", "close");
    CarriesExactly(lines, "content-length", Decimal(n));
    if kind.Request? {
      CarriesExactly(lines, "host", kind.host);
    }
  }

  lemma {:induction false} LinesExactly(lines: seq<string>, kind: Kind, n: nat)
    requires 0 < n <= Limit(kind)
    ensures Complete(lines, kind, n) <==> Fields(lines).Some? && Match(Fields(lines).value, kind, n)
  {
    CompleteExactly(lines, kind, n);
    FieldsExactly(lines);
    if Complete(lines, kind, n) {
      InPairsDistinct(Pairs(lines), kind, n);
      PairsMatch(Pairs(lines), Fields(lines).value, kind, n);
    }
    if Fields(lines).Some? && Match(Fields(lines).value, kind, n) {
      MatchedInPairs(Pairs(lines), Fields(lines).value, kind, n);
      HostKnown(Pairs(lines), kind, n);
    }
  }

  lemma {:induction false} HostKnown(pairs: seq<(string, string)>, kind: Kind, n: nat)
    requires AllKnown(pairs) && InPairs(pairs, kind, n)
    ensures kind.Request? ==> ValueOk(kind.host)
  {
  }

  /**
    Headers are accepted, with their first line and body length, if and only if they are short enough, open correctly and
    hold exactly the expected fields, in any order and with names in any case.
   */
  lemma {:induction false} HeadersExactly(raw: string, kind: Kind, first: string, n: nat)
    requires |raw| >= 4
    ensures var lines := SplitLines(raw[..|raw| - 4]);
            ParseHeaders(raw, kind) == Some(Head(first, n)) <==>
            |raw| <= 16384 && lines[0] == first && Opens(first, kind) && Complete(lines[1..], kind, n)
  {
    var lines := SplitLines(raw[..|raw| - 4]);
    if 0 < n <= Limit(kind) {
      LinesExactly(lines[1..], kind, n);
    }
    if Fields(lines[1..]).Some? {
      ConcludeExactly(Fields(lines[1..]).value, lines[0], kind, n);
    }
  }
}
