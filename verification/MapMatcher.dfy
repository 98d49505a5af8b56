/** `match_maps` (live_proxy_server.py): all code of a file sits in memory at one load bias, and nothing else of it does. */
module MapMatcher {
  import opened Prelude
  import opened CodeMaps

  function Size(m: Mapping): int {
    m.end - m.start
  }

  predicate AllProper(maps: seq<Mapping>) {
    forall m :: m in maps ==> m.start < m.end
  }

  // ---------------------------------------------------------------- the greedy loop

  /** The mappings that start at one file offset. */
  function StartingAt(maps: seq<Mapping>, offset: int): seq<Mapping> {
    if maps == [] then []
    else StartingAt(maps[..|maps| - 1], offset) + if maps[|maps| - 1].offset == offset then [maps[|maps| - 1]] else []
  }

  /** `list.remove`: the list without the first element equal to m. */
  function Remove(maps: seq<Mapping>, m: Mapping): seq<Mapping> {
    if maps == [] then [] else if maps[0] == m then maps[1..] else [maps[0]] + Remove(maps[1..], m)
  }

  function Bias(m: Mapping, segment: Segment): int {
    m.start - segment.address - (m.offset - segment.offset)
  }

  /** What a file must agree on: page size, and no bias at all for a fixed-address executable. */
  predicate BiasOk(bias: int, page: nat, fixed: bool)
    requires IsPage(page)
  {
    bias >= 0 && bias % page == 0 && (fixed ==> bias == 0)
  }

  datatype Progress = Progress(remaining: seq<Mapping>, bias: Option<int>)

  /** The mapping taken at a cursor, if there is exactly one and it fits. */
  function Take(segment: Segment, cursor: int, so: Progress, page: nat, fixed: bool): (r: Option<Mapping>)
    requires IsPage(page) && AllProper(so.remaining)
    ensures r.Some? ==> StartingAt(so.remaining, cursor) == [r.value] && Size(r.value) > 0
    ensures r.Some? ==> |Remove(so.remaining, r.value)| < |so.remaining| && AllProper(Remove(so.remaining, r.value))
  {
    var matches := StartingAt(so.remaining, cursor);
    if |matches| != 1 then None
    else
      var m := matches[0];
      if m.permissions != segment.permissions || cursor + Size(m) > segment.offset + segment.length then None
      else if !BiasOk(Bias(m, segment), page, fixed) || !(so.bias.None? || so.bias.value == Bias(m, segment)) then None
      else
        TakenFrom(so.remaining, m, cursor);
        Some(m)
  }

  /** The inner while loop: one segment from a cursor to its end. */
  function Tile(segment: Segment, cursor: int, so: Progress, page: nat, fixed: bool): (r: Option<Progress>)
    requires IsPage(page) && AllProper(so.remaining)
    ensures r.Some? ==> AllProper(r.value.remaining)
    decreases |so.remaining|
  {
    if cursor >= segment.offset + segment.length then Some(so)
    else
      match Take(segment, cursor, so, page, fixed)
      case None => None
      case Some(m) =>
        Tile(segment, cursor + Size(m), Progress(Remove(so.remaining, m), Some(Bias(m, segment))), page, fixed)
  }

  function TileAll(segments: seq<Segment>, so: Progress, page: nat, fixed: bool): Option<Progress>
    requires IsPage(page) && AllProper(so.remaining)
  {
    if segments == [] then Some(so)
    else
      match Tile(segments[0], segments[0].offset, so, page, fixed)
      case None => None
      case Some(next) =>
        TileAll(segments[1..], next, page, fixed)
  }

  /** One file of `match_maps`: its segments consume exactly its mappings. */
  predicate Matches(segments: seq<Segment>, maps: seq<Mapping>, page: nat, fixed: bool)
    requires IsPage(page) && AllProper(maps)
  {
    var r := TileAll(segments, Progress(maps, None), page, fixed);
    r.Some? && r.value.remaining == []
  }

  lemma {:induction false} StartingAtMembers(maps: seq<Mapping>, offset: int, m: Mapping)
    ensures m in StartingAt(maps, offset) <==> m in maps && m.offset == offset
  {
    if maps != [] {
      StartingAtMembers(maps[..|maps| - 1], offset, m);
      assert maps == maps[..|maps| - 1] + [maps[|maps| - 1]];
    }
  }

  lemma {:induction false} RemoveShorter(maps: seq<Mapping>, m: Mapping)
    requires m in maps
    ensures |Remove(maps, m)| == |maps| - 1
    ensures forall x :: x in Remove(maps, m) ==> x in maps
    ensures forall x :: x in maps && x != m ==> x in Remove(maps, m)
  {
    if maps[0] != m {
      RemoveShorter(maps[1..], m);
    }
  }

  lemma {:induction false} TakenFrom(maps: seq<Mapping>, m: Mapping, cursor: int)
    requires StartingAt(maps, cursor) == [m]
    ensures m in maps && m.offset == cursor && |Remove(maps, m)| == |maps| - 1
    ensures forall x :: x in Remove(maps, m) ==> x in maps
    ensures forall x :: x in maps && x != m ==> x in Remove(maps, m)
  {
    assert m in StartingAt(maps, cursor);
    StartingAtMembers(maps, cursor, m);
    RemoveShorter(maps, m);
  }

  lemma {:induction false} TileUnfolds(segment: Segment, cursor: int, so: Progress, m: Mapping, page: nat, fixed: bool)
    requires IsPage(page) && AllProper(so.remaining) && cursor < segment.offset + segment.length
    requires Take(segment, cursor, so, page, fixed) == Some(m) && AllProper(Remove(so.remaining, m))
    ensures Tile(segment, cursor, so, page, fixed)
            == Tile(segment, cursor + Size(m), Progress(Remove(so.remaining, m), Some(Bias(m, segment))), page, fixed)
  {
  }

  predicate Within(some: seq<Mapping>, maps: seq<Mapping>) {
    forall m :: m in some ==> m in maps
  }

  lemma {:induction false} WithinRest(some: seq<Mapping>, maps: seq<Mapping>, m: Mapping, cursor: int)
    requires StartingAt(maps, cursor) == [m] && Within(some, Remove(maps, m))
    ensures Within(some, maps)
  {
    TakenFrom(maps, m, cursor);
  }

  lemma {:induction false} TileShrinks(segment: Segment, cursor: int, so: Progress, page: nat, fixed: bool)
    requires IsPage(page) && AllProper(so.remaining)
    requires Tile(segment, cursor, so, page, fixed).Some?
    ensures Within(Tile(segment, cursor, so, page, fixed).value.remaining, so.remaining)
    decreases |so.remaining|
  {
    if cursor < segment.offset + segment.length {
      var m := Take(segment, cursor, so, page, fixed).value;
      var rest := Progress(Remove(so.remaining, m), Some(Bias(m, segment)));
      TileUnfolds(segment, cursor, so, m, page, fixed);
      TileShrinks(segment, cursor + Size(m), rest, page, fixed);
      WithinRest(Tile(segment, cursor + Size(m), rest, page, fixed).value.remaining, so.remaining, m, cursor);
    }
  }

  /** The inner loop: the cursor runs through one segment. */
  method TileSegment(segment: Segment, start: Progress, page: nat, fixed: bool) returns (r: Option<Progress>)
    requires IsPage(page) && AllProper(start.remaining)
    ensures r == Tile(segment, segment.offset, start, page, fixed)
    ensures r.Some? ==> AllProper(r.value.remaining)
  {
    var remaining, bias := start.remaining, start.bias;
    var cursor, end: int := segment.offset, segment.offset + segment.length;
    while cursor < end
      invariant AllProper(remaining)
      invariant Tile(segment, cursor, Progress(remaining, bias), page, fixed) == Tile(segment, segment.offset, start, page, fixed)
      decreases |remaining|
    {
      var m := Take(segment, cursor, Progress(remaining, bias), page, fixed);
      if m.None? {
        return None;
      }
      TileUnfolds(segment, cursor, Progress(remaining, bias), m.value, page, fixed);
      bias := Some(Bias(m.value, segment));
      cursor := cursor + Size(m.value);
      remaining := Remove(remaining, m.value);
    }
    r := Some(Progress(remaining, bias));
  }

  /** The outer loop of `match_maps` for one file. */
  method MatchFile(segments: seq<Segment>, actual: seq<Mapping>, page: nat, fixed: bool) returns (ok: bool)
    requires IsPage(page) && AllProper(actual)
    ensures ok <==> Matches(segments, actual, page, fixed)
  {
    var so := Progress(actual, None);
    var i := 0;
    while i < |segments|
      invariant 0 <= i <= |segments| && AllProper(so.remaining)
      invariant TileAll(segments[i..], so, page, fixed) == TileAll(segments, Progress(actual, None), page, fixed)
    {
      assert segments[i..][0] == segments[i] && segments[i..][1..] == segments[i + 1..];
      var next := TileSegment(segments[i], so, page, fixed);
      if next.None? {
        return false;
      }
      so, i := next.value, i + 1;
    }
    ok := so.remaining == [];
  }

  // ---------------------------------------------------------------- what acceptance means

  /** A mapping that shows a part of the segment at the bias. */
  predicate Placed(segment: Segment, m: Mapping, bias: int) {
    && m.permissions == segment.permissions && m.start < m.end
    && segment.offset <= m.offset && m.offset + Size(m) <= segment.offset + segment.length
    && m.start == segment.address + (m.offset - segment.offset) + bias
  }

  predicate Shows(m: Mapping, x: int) {
    m.offset <= x < m.offset + Size(m)
  }

  ghost predicate Shown(segment: Segment, maps: seq<Mapping>, bias: int, x: int) {
    exists m :: m in maps && Placed(segment, m, bias) && Shows(m, x)
  }

  /** Every file offset of the segment from `from` on is shown by a mapping placed in it. */
  ghost predicate Covered(segment: Segment, from: int, maps: seq<Mapping>, bias: int) {
    forall x :: from <= x < segment.offset + segment.length ==> Shown(segment, maps, bias, x)
  }

  /** The mappings are an exact split of the segments at one bias: they cover every segment, and each shows a part of one. */
  ghost predicate ExactSplit(segments: seq<Segment>, maps: seq<Mapping>, bias: int) {
    && (forall i :: 0 <= i < |segments| ==> Covered(segments[i], segments[i].offset, maps, bias))
    && (forall m :: m in maps ==> exists i :: 0 <= i < |segments| && Placed(segments[i], m, bias))
  }

  // ---------------------------------------------------------------- soundness

  /** What one tiled segment guarantees. */
  ghost predicate Tiled(segment: Segment, cursor: int, so: Progress, next: Progress, page: nat, fixed: bool)
    requires IsPage(page)
  {
    && (cursor < segment.offset + segment.length ==> next.bias.Some?)
    && (so.bias.Some? ==> next.bias == so.bias)
    && (next.bias.Some? && so.bias.None? ==> BiasOk(next.bias.value, page, fixed))
    && (next.bias.Some? ==>
          && Covered(segment, cursor, so.remaining, next.bias.value)
          && forall m :: m in so.remaining ==> m in next.remaining || Placed(segment, m, next.bias.value))
    && (next.bias.None? ==> so.remaining == next.remaining)
  }

  lemma {:induction false} OneTile(segment: Segment, cursor: int, so: Progress, m: Mapping, next: Progress, page: nat, fixed: bool)
    requires IsPage(page) && segment.offset <= cursor < segment.offset + segment.length
    requires AllProper(so.remaining) && Take(segment, cursor, so, page, fixed) == Some(m)
    requires Tiled(segment, cursor + Size(m), Progress(Remove(so.remaining, m), Some(Bias(m, segment))), next, page, fixed)
    ensures Tiled(segment, cursor, so, next, page, fixed)
  {
    TakenFrom(so.remaining, m, cursor);
    assert Placed(segment, m, Bias(m, segment));
    forall x | cursor <= x < segment.offset + segment.length
      ensures Shown(segment, so.remaining, Bias(m, segment), x)
    {
      if x < cursor + Size(m) {
        assert Shows(m, x);
      } else {
        assert Shown(segment, Remove(so.remaining, m), Bias(m, segment), x);
        var y :| y in Remove(so.remaining, m) && Placed(segment, y, Bias(m, segment)) && Shows(y, x);
        assert y in so.remaining;
      }
    }
  }

  lemma {:induction false} TileSound(segment: Segment, cursor: int, so: Progress, page: nat, fixed: bool)
    requires IsPage(page) && segment.offset <= cursor && AllProper(so.remaining)
    requires Tile(segment, cursor, so, page, fixed).Some?
    ensures Tiled(segment, cursor, so, Tile(segment, cursor, so, page, fixed).value, page, fixed)
    decreases |so.remaining|
  {
    if cursor < segment.offset + segment.length {
      var m := Take(segment, cursor, so, page, fixed).value;
      var rest := Progress(Remove(so.remaining, m), Some(Bias(m, segment)));
      TileUnfolds(segment, cursor, so, m, page, fixed);
      TileSound(segment, cursor + Size(m), rest, page, fixed);
      OneTile(segment, cursor, so, m, Tile(segment, cursor, so, page, fixed).value, page, fixed);
    }
  }

  /** What the tiled rest of the segments guarantees. */
  ghost predicate AllTiled(segments: seq<Segment>, so: Progress, next: Progress, page: nat, fixed: bool)
    requires IsPage(page)
  {
    && (segments != [] ==> next.bias.Some?)
    && (so.bias.Some? ==> next.bias == so.bias)
    && (next.bias.Some? && so.bias.None? ==> BiasOk(next.bias.value, page, fixed))
    && (segments == [] ==> next == so)
    && (next.bias.Some? ==>
          && (forall i :: 0 <= i < |segments| ==> Covered(segments[i], segments[i].offset, so.remaining, next.bias.value))
          && forall m :: m in so.remaining ==>
               m in next.remaining || exists i :: 0 <= i < |segments| && Placed(segments[i], m, next.bias.value))
  }

  lemma {:induction false} CoveredByMore(segment: Segment, from: int, some: seq<Mapping>, maps: seq<Mapping>, bias: int)
    requires Covered(segment, from, some, bias) && forall m :: m in some ==> m in maps
    ensures Covered(segment, from, maps, bias)
  {
    forall x | from <= x < segment.offset + segment.length
      ensures Shown(segment, maps, bias, x)
    {
      assert Shown(segment, some, bias, x);
    }
  }

  lemma {:induction false} OneSegment(segments: seq<Segment>, so: Progress, mid: Progress, next: Progress, page: nat, fixed: bool)
    requires IsPage(page) && segments != [] && segments[0].length > 0
    requires Tiled(segments[0], segments[0].offset, so, mid, page, fixed) && AllTiled(segments[1..], mid, next, page, fixed)
    requires forall m :: m in mid.remaining ==> m in so.remaining
    ensures AllTiled(segments, so, next, page, fixed)
  {
    var bias := next.bias.value;
    forall i | 0 <= i < |segments|
      ensures Covered(segments[i], segments[i].offset, so.remaining, bias)
    {
      if i > 0 {
        assert segments[i] == segments[1..][i - 1];
        CoveredByMore(segments[i], segments[i].offset, mid.remaining, so.remaining, bias);
      }
    }
    forall m | m in so.remaining && m !in next.remaining
      ensures exists i :: 0 <= i < |segments| && Placed(segments[i], m, bias)
    {
      if m in mid.remaining {
        var i :| 0 <= i < |segments| - 1 && Placed(segments[1..][i], m, bias);
        assert segments[1..][i] == segments[i + 1];
      } else {
        assert Placed(segments[0], m, bias);
      }
    }
  }

  predicate Lengths(segments: seq<Segment>) {
    forall i :: 0 <= i < |segments| ==> segments[i].length > 0
  }

  lemma {:induction false} TileAllSound(segments: seq<Segment>, so: Progress, page: nat, fixed: bool)
    requires IsPage(page) && AllProper(so.remaining) && Lengths(segments)
    requires TileAll(segments, so, page, fixed).Some?
    ensures AllTiled(segments, so, TileAll(segments, so, page, fixed).value, page, fixed)
    decreases |segments|
  {
    if segments != [] {
      var mid := Tile(segments[0], segments[0].offset, so, page, fixed).value;
      TileShrinks(segments[0], segments[0].offset, so, page, fixed);
      TileSound(segments[0], segments[0].offset, so, page, fixed);
      TileAllSound(segments[1..], mid, page, fixed);
      OneSegment(segments, so, mid, TileAll(segments, so, page, fixed).value, page, fixed);
    }
  }

  /** Acceptance means an exact split at one page-aligned, non-negative bias, zero for a fixed executable. */
  lemma {:induction false} AcceptedIsExactSplit(segments: seq<Segment>, maps: seq<Mapping>, page: nat, fixed: bool) returns (bias: int)
    requires IsPage(page) && AllProper(maps) && Lengths(segments) && segments != []
    requires Matches(segments, maps, page, fixed)
    ensures BiasOk(bias, page, fixed) && ExactSplit(segments, maps, bias)
  {
    TileAllSound(segments, Progress(maps, None), page, fixed);
    bias := TileAll(segments, Progress(maps, None), page, fixed).value.bias.value;
  }

  // ---------------------------------------------------------------- completeness

  predicate Apart(a: Segment, b: Segment) {
    a.offset + a.length <= b.offset || b.offset + b.length <= a.offset
  }

  /** No file page belongs to two code segments. */
  predicate RangesDisjoint(segments: seq<Segment>) {
    forall i, j :: 0 <= i < j < |segments| ==> Apart(segments[i], segments[j])
  }

  /** What is left fits what is still to be tiled: the current segment from the cursor, and the later segments. */
  ghost predicate Left(segment: Segment, cursor: int, later: seq<Segment>, remaining: seq<Mapping>, bias: int) {
    && Ascending(remaining)
    && Covered(segment, cursor, remaining, bias)
    && (forall i :: 0 <= i < |later| ==> Covered(later[i], later[i].offset, remaining, bias))
    && (forall m :: m in remaining ==>
          (Placed(segment, m, bias) && cursor <= m.offset) || exists i :: 0 <= i < |later| && Placed(later[i], m, bias))
  }

  lemma {:induction false} AscendingDistinct(maps: seq<Mapping>, x: Mapping, y: Mapping)
    requires Ascending(maps) && x in maps && y in maps && x != y
    ensures x.start < x.end && y.start < y.end && (x.end <= y.start || y.end <= x.start)
  {
    var i :| 0 <= i < |maps| && maps[i] == x;
    var j :| 0 <= j < |maps| && maps[j] == y;
    assert i < j || j < i;
  }

  lemma {:induction false} FirstIsBefore(maps: seq<Mapping>, x: Mapping)
    requires Ascending(maps) && maps != [] && x in maps[1..]
    ensures maps[0].end <= x.start && maps[0].start < maps[0].end && x.start < x.end && maps[0] != x
  {
    var i :| 0 <= i < |maps| - 1 && maps[1..][i] == x;
    assert maps[i + 1] == x;
  }

  lemma {:induction false} PrependAscending(first: Mapping, rest: seq<Mapping>)
    requires Ascending(rest) && first.start < first.end && forall x :: x in rest ==> first.end <= x.start
    ensures Ascending([first] + rest)
  {
    var all := [first] + rest;
    forall i, j | 0 <= i < j < |all|
      ensures all[i].end <= all[j].start
    {
      assert all[j] == rest[j - 1] && rest[j - 1] in rest;
      if i > 0 {
        assert all[i] == rest[i - 1];
      }
    }
    forall i | 0 <= i < |all|
      ensures all[i].start < all[i].end
    {
      if i > 0 {
        assert all[i] == rest[i - 1];
      }
    }
  }

  lemma {:induction false} RestAscending(maps: seq<Mapping>)
    requires Ascending(maps) && maps != []
    ensures Ascending(maps[1..])
  {
  }

  lemma {:induction false} RemoveAscending(maps: seq<Mapping>, m: Mapping)
    requires Ascending(maps) && m in maps
    ensures Ascending(Remove(maps, m)) && m !in Remove(maps, m)
  {
    RestAscending(maps);
    if maps[0] == m {
      if m in maps[1..] {
        FirstIsBefore(maps, m);
      }
    } else {
      RemoveAscending(maps[1..], m);
      RemoveShorter(maps[1..], m);
      var rest := Remove(maps[1..], m);
      forall x | x in rest
        ensures maps[0].end <= x.start
      {
        FirstIsBefore(maps, x);
      }
      PrependAscending(maps[0], rest);
    }
  }

  lemma {:induction false} OnlyOneStarts(maps: seq<Mapping>, m: Mapping, cursor: int)
    requires Ascending(maps) && m in maps && m.offset == cursor
    requires forall y :: y in maps && y.offset == cursor ==> y == m
    ensures StartingAt(maps, cursor) == [m]
  {
    var before, last := maps[..|maps| - 1], maps[|maps| - 1];
    assert maps == before + [last];
    if last == m {
      forall y | y in before
        ensures y.offset != cursor
      {
        var i :| 0 <= i < |before| && before[i] == y;
        assert maps[i].end <= maps[|maps| - 1].start;
      }
      NoneStarts(before, cursor);
    } else {
      OnlyOneStarts(before, m, cursor);
    }
  }

  lemma {:induction false} NoneStarts(maps: seq<Mapping>, cursor: int)
    requires forall y :: y in maps ==> y.offset != cursor
    ensures StartingAt(maps, cursor) == []
  {
    if maps != [] {
      NoneStarts(maps[..|maps| - 1], cursor);
      assert maps[|maps| - 1] in maps;
    }
  }

  /** The one mapping that must come next. */
  lemma {:induction false} NextTile(segment: Segment, cursor: int, later: seq<Segment>, remaining: seq<Mapping>, bias: int) returns (m: Mapping)
    requires segment.offset <= cursor < segment.offset + segment.length
    requires Left(segment, cursor, later, remaining, bias) && forall i :: 0 <= i < |later| ==> Apart(segment, later[i])
    ensures m in remaining && m.offset == cursor && Placed(segment, m, bias)
    ensures StartingAt(remaining, cursor) == [m]
  {
    assert Shown(segment, remaining, bias, cursor);
    m :| m in remaining && Placed(segment, m, bias) && Shows(m, cursor);
    InCurrent(segment, cursor, later, remaining, bias, m);
    forall y | y in remaining && y.offset == cursor
      ensures y == m
    {
      InCurrent(segment, cursor, later, remaining, bias, y);
      if y != m {
        AscendingDistinct(remaining, m, y);
      }
    }
    OnlyOneStarts(remaining, m, cursor);
  }

  lemma {:induction false} InCurrent(segment: Segment, cursor: int, later: seq<Segment>, remaining: seq<Mapping>, bias: int, m: Mapping)
    requires segment.offset <= cursor < segment.offset + segment.length
    requires Left(segment, cursor, later, remaining, bias) && forall i :: 0 <= i < |later| ==> Apart(segment, later[i])
    requires m in remaining && (m.offset == cursor || (Placed(segment, m, bias) && Shows(m, cursor)))
    ensures Placed(segment, m, bias) && m.offset == cursor
  {
    forall i | 0 <= i < |later|
      ensures !Placed(later[i], m, bias)
    {
      assert Apart(segment, later[i]);
    }
  }

  lemma {:induction false} LeftAfter(segment: Segment, cursor: int, later: seq<Segment>, remaining: seq<Mapping>, bias: int, m: Mapping)
    requires segment.offset <= cursor < segment.offset + segment.length
    requires Left(segment, cursor, later, remaining, bias)
    requires m in remaining && m.offset == cursor && Placed(segment, m, bias) && forall i :: 0 <= i < |later| ==> Apart(segment, later[i])
    ensures Left(segment, cursor + Size(m), later, Remove(remaining, m), bias)
  {
    var rest := Remove(remaining, m);
    RemoveShorter(remaining, m);
    RemoveAscending(remaining, m);
    forall x | cursor + Size(m) <= x < segment.offset + segment.length
      ensures Shown(segment, rest, bias, x)
    {
      assert Shown(segment, remaining, bias, x);
      var y :| y in remaining && Placed(segment, y, bias) && Shows(y, x);
      assert y != m;
    }
    forall i | 0 <= i < |later|
      ensures Covered(later[i], later[i].offset, rest, bias)
    {
      LaterCovered(segment, later[i], remaining, bias, m);
    }
    forall y | y in rest
      ensures (Placed(segment, y, bias) && cursor + Size(m) <= y.offset) || exists i :: 0 <= i < |later| && Placed(later[i], y, bias)
    {
      assert y in remaining && y != m;
      AscendingDistinct(remaining, m, y);
    }
  }

  lemma {:induction false} LaterCovered(segment: Segment, later: Segment, remaining: seq<Mapping>, bias: int, m: Mapping)
    requires Covered(later, later.offset, remaining, bias) && Placed(segment, m, bias) && Apart(segment, later) && m in remaining
    ensures Covered(later, later.offset, Remove(remaining, m), bias)
  {
    RemoveShorter(remaining, m);
    forall x | later.offset <= x < later.offset + later.length
      ensures Shown(later, Remove(remaining, m), bias, x)
    {
      assert Shown(later, remaining, bias, x);
      var y :| y in remaining && Placed(later, y, bias) && Shows(y, x);
      assert y != m;
    }
  }

  lemma {:induction false} Taken(segment: Segment, cursor: int, so: Progress, m: Mapping, bias: int, page: nat, fixed: bool)
    requires IsPage(page) && BiasOk(bias, page, fixed) && (so.bias.None? || so.bias.value == bias)
    requires AllProper(so.remaining) && StartingAt(so.remaining, cursor) == [m] && m.offset == cursor && Placed(segment, m, bias)
    ensures Bias(m, segment) == bias && Take(segment, cursor, so, page, fixed) == Some(m)
  {
  }

  lemma {:induction false} TileStep(segment: Segment, cursor: int, later: seq<Segment>, so: Progress, bias: int, page: nat, fixed: bool)
    returns (m: Mapping, next: Progress)
    requires IsPage(page) && BiasOk(bias, page, fixed) && segment.offset <= cursor < segment.offset + segment.length
    requires Left(segment, cursor, later, so.remaining, bias) && forall i :: 0 <= i < |later| ==> Apart(segment, later[i])
    requires so.bias.None? || so.bias.value == bias
    ensures Size(m) > 0 && cursor + Size(m) <= segment.offset + segment.length
    ensures next.bias == Some(bias) && |next.remaining| < |so.remaining|
    ensures Left(segment, cursor + Size(m), later, next.remaining, bias)
    ensures AllProper(so.remaining) && AllProper(next.remaining)
    ensures Tile(segment, cursor, so, page, fixed) == Tile(segment, cursor + Size(m), next, page, fixed)
  {
    m := NextTile(segment, cursor, later, so.remaining, bias);
    Proper(so.remaining);
    Taken(segment, cursor, so, m, bias, page, fixed);
    TakenFrom(so.remaining, m, cursor);
    LeftAfter(segment, cursor, later, so.remaining, bias, m);
    next := Progress(Remove(so.remaining, m), Some(bias));
    Proper(next.remaining);
    TileUnfolds(segment, cursor, so, m, page, fixed);
  }

  lemma {:induction false} Proper(maps: seq<Mapping>)
    requires Ascending(maps)
    ensures AllProper(maps)
  {
    forall m | m in maps
      ensures m.start < m.end
    {
      var i :| 0 <= i < |maps| && maps[i] == m;
    }
  }

  /** A segment tiled to its end leaves an exact split of the later ones. */
  ghost predicate TiledUp(segment: Segment, later: seq<Segment>, r: Option<Progress>, bias: int) {
    && r.Some? && Left(segment, segment.offset + segment.length, later, r.value.remaining, bias)
    && (r.value.bias.None? || r.value.bias.value == bias)
  }

  lemma {:induction false} TileComplete(segment: Segment, cursor: int, later: seq<Segment>, so: Progress, bias: int, page: nat, fixed: bool)
    requires IsPage(page) && BiasOk(bias, page, fixed) && segment.offset <= cursor <= segment.offset + segment.length
    requires Left(segment, cursor, later, so.remaining, bias) && forall i :: 0 <= i < |later| ==> Apart(segment, later[i])
    requires so.bias.None? || so.bias.value == bias
    ensures AllProper(so.remaining) && TiledUp(segment, later, Tile(segment, cursor, so, page, fixed), bias)
    decreases |so.remaining|
  {
    Proper(so.remaining);
    if cursor < segment.offset + segment.length {
      var m, next := TileStep(segment, cursor, later, so, bias, page, fixed);
      TileComplete(segment, cursor + Size(m), later, next, bias, page, fixed);
    }
  }

  /** What is left of the mappings is an exact split of what is left of the segments. */
  lemma {:induction false} DoneLeft(segment: Segment, later: seq<Segment>, remaining: seq<Mapping>, bias: int)
    requires Left(segment, segment.offset + segment.length, later, remaining, bias)
    ensures ExactSplit(later, remaining, bias) && Ascending(remaining)
  {
    forall m | m in remaining
      ensures exists i :: 0 <= i < |later| && Placed(later[i], m, bias)
    {
    }
  }

  lemma {:induction false} SplitLeft(segments: seq<Segment>, maps: seq<Mapping>, bias: int)
    requires segments != [] && ExactSplit(segments, maps, bias) && Ascending(maps)
    ensures Left(segments[0], segments[0].offset, segments[1..], maps, bias)
  {
    forall m | m in maps
      ensures Placed(segments[0], m, bias) || exists i :: 0 <= i < |segments| - 1 && Placed(segments[1..][i], m, bias)
    {
      var i :| 0 <= i < |segments| && Placed(segments[i], m, bias);
      assert i > 0 ==> segments[1..][i - 1] == segments[i];
    }
  }

  lemma {:induction false} MapsNeedSegments(segments: seq<Segment>, maps: seq<Mapping>, bias: int)
    requires ExactSplit(segments, maps, bias)
    ensures maps == [] || segments != []
  {
    if maps != [] {
      assert maps[0] in maps;
    }
  }

  lemma {:induction false} TileAllComplete(segments: seq<Segment>, so: Progress, bias: int, page: nat, fixed: bool)
    requires IsPage(page) && BiasOk(bias, page, fixed) && RangesDisjoint(segments)
    requires Ascending(so.remaining) && ExactSplit(segments, so.remaining, bias)
    requires so.bias.None? || so.bias.value == bias
    ensures TileAll(segments, so, page, fixed).Some? && TileAll(segments, so, page, fixed).value.remaining == []
    decreases |segments|
  {
    if segments == [] {
      MapsNeedSegments(segments, so.remaining, bias);
    } else {
      SplitLeft(segments, so.remaining, bias);
      TileComplete(segments[0], segments[0].offset, segments[1..], so, bias, page, fixed);
      var next := Tile(segments[0], segments[0].offset, so, page, fixed).value;
      DoneLeft(segments[0], segments[1..], next.remaining, bias);
      TileAllComplete(segments[1..], next, bias, page, fixed);
    }
  }

  /** For code segments in disjoint file ranges the loop accepts exactly the exact splits at one permitted bias. */
  lemma {:induction false} AcceptsExactlyTheSplits(segments: seq<Segment>, maps: seq<Mapping>, page: nat, fixed: bool)
    requires IsPage(page) && Ascending(maps) && Lengths(segments) && segments != [] && RangesDisjoint(segments)
    ensures AllProper(maps)
    ensures Matches(segments, maps, page, fixed) <==> exists bias :: BiasOk(bias, page, fixed) && ExactSplit(segments, maps, bias)
  {
    if Matches(segments, maps, page, fixed) {
      var bias := AcceptedIsExactSplit(segments, maps, page, fixed);
    }
    if exists bias :: BiasOk(bias, page, fixed) && ExactSplit(segments, maps, bias) {
      var bias :| BiasOk(bias, page, fixed) && ExactSplit(segments, maps, bias);
      TileAllComplete(segments, Progress(maps, None), bias, page, fixed);
    }
  }

  // ---------------------------------------------------------------- every byte of code

  predicate Maps(m: Mapping, address: int) {
    m.start <= address < m.end
  }

  lemma {:induction false} SegmentSpans(h: Header, page: nat, f: int)
    requires IsPage(page) && CodeShape(h, page) && LoadShape(h, page, 0) && h.offset <= f < h.offset + h.memory
    ensures var s := SegmentOf(h, page);
            && s.length > 0 && s.offset <= f < s.offset + s.length && h.address - s.address == h.offset - s.offset
  {
    Rounding(h.offset, page);
    Rounding(h.offset + h.memory, page);
    Rounding(h.address, page);
  }

  /**
    If the layout of a file and the mappings of a process match, there is one bias such that every byte of
    every executable load, zero-filled tail included, is at its link address plus the bias, in exactly one
    mapping, which shows exactly that byte's file offset.
   */
  lemma {:induction false} EveryCodeByteMapped(headers: seq<Header>, fileSize: nat, maps: seq<Mapping>, page: nat, fixed: bool)
    returns (bias: int)
    requires IsPage(page) && CodeLayout(headers, fileSize, page).Some? && Ascending(maps)
    requires AllProper(maps) && Matches(CodeLayout(headers, fileSize, page).value, maps, page, fixed)
    ensures BiasOk(bias, page, fixed)
    ensures forall h, f :: h in headers && CodeLoad(h) && h.offset <= f < h.offset + h.memory ==>
              ByteMapped(h, f, maps, bias)
    ensures forall m :: m in maps ==> exists h :: h in headers && CodeLoad(h) && Placed(SegmentOf(h, page), m, bias)
  {
    var segments := CodeLayout(headers, fileSize, page).value;
    LayoutHasEveryLoad(headers, fileSize, page);
    LayoutLengths(headers, fileSize, page);
    bias := AcceptedIsExactSplit(segments, maps, page, fixed);
    forall h, f | h in headers && CodeLoad(h) && h.offset <= f < h.offset + h.memory
      ensures ByteMapped(h, f, maps, bias)
    {
      SegmentSpans(h, page, f);
      var i :| 0 <= i < |segments| && segments[i] == SegmentOf(h, page);
      assert Covered(segments[i], segments[i].offset, maps, bias);
      ByteInSegment(h, f, SegmentOf(h, page), maps, bias);
    }
    forall m | m in maps
      ensures exists h :: h in headers && CodeLoad(h) && Placed(SegmentOf(h, page), m, bias)
    {
      var i :| 0 <= i < |segments| && Placed(segments[i], m, bias);
      assert segments[i] in segments;
    }
  }

  /** Exactly one mapping holds the byte's address, and there it shows the byte's file offset. */
  ghost predicate ByteMapped(h: Header, f: int, maps: seq<Mapping>, bias: int) {
    var address := h.address + (f - h.offset) + bias;
    exists m :: m in maps && Maps(m, address) && m.offset + (address - m.start) == f
                && forall y :: y in maps && Maps(y, address) ==> y == m
  }

  lemma {:induction false} ByteInSegment(h: Header, f: int, s: Segment, maps: seq<Mapping>, bias: int)
    requires Ascending(maps) && Covered(s, s.offset, maps, bias)
    requires s.offset <= f < s.offset + s.length && h.address - s.address == h.offset - s.offset
    ensures ByteMapped(h, f, maps, bias)
  {
    var address := h.address + (f - h.offset) + bias;
    assert Shown(s, maps, bias, f);
    var m :| m in maps && Placed(s, m, bias) && Shows(m, f);
    assert Maps(m, address) && m.offset + (address - m.start) == f;
    forall y | y in maps && Maps(y, address)
      ensures y == m
    {
      if y != m {
        AscendingDistinct(maps, m, y);
      }
    }
  }

  lemma {:induction false} LayoutLengths(headers: seq<Header>, fileSize: nat, page: nat)
    requires IsPage(page) && CodeLayout(headers, fileSize, page).Some?
    ensures Lengths(CodeLayout(headers, fileSize, page).value) && CodeLayout(headers, fileSize, page).value != []
  {
    var segments := CodeLayout(headers, fileSize, page).value;
    LayoutHasEveryLoad(headers, fileSize, page);
    forall i | 0 <= i < |segments|
      ensures segments[i].length > 0
    {
      assert segments[i] in segments;
      var h :| h in headers && CodeLoad(h) && segments[i] == SegmentOf(h, page);
      SegmentSpans(h, page, h.offset);
    }
  }

  // ---------------------------------------------------------------- a whole process

  /** An enrolled file: its device and inode, whether its addresses are fixed, its loader, its code. */
  datatype CodeFile = CodeFile(identity: (nat, nat, nat), fixed: bool, interpreter: Option<string>, segments: seq<Segment>)

  /** The group of one path, in address order. */
  function OfPath(maps: seq<Mapping>, path: string): seq<Mapping> {
    if maps == [] then []
    else OfPath(maps[..|maps| - 1], path) + if maps[|maps| - 1].path == path then [maps[|maps| - 1]] else []
  }

  lemma {:induction false} OfPathMembers(maps: seq<Mapping>, path: string, m: Mapping)
    ensures m in OfPath(maps, path) <==> m in maps && m.path == path
  {
    if maps != [] {
      OfPathMembers(maps[..|maps| - 1], path, m);
      assert maps == maps[..|maps| - 1] + [maps[|maps| - 1]];
    }
  }

  lemma {:induction false} OfPathAscends(maps: seq<Mapping>, path: string)
    requires Ascending(maps)
    ensures Ascending(OfPath(maps, path)) && AllProper(OfPath(maps, path))
  {
    if maps != [] {
      var before, last := maps[..|maps| - 1], maps[|maps| - 1];
      OfPathAscends(before, path);
      var some := OfPath(before, path);
      forall i | 0 <= i < |some|
        ensures some[i].end <= last.start
      {
        assert some[i] in some;
        OfPathMembers(before, path, some[i]);
        var j :| 0 <= j < |before| && before[j] == some[i];
        assert maps[j].end <= maps[|maps| - 1].start;
      }
    }
    Proper(OfPath(maps, path));
  }

  predicate Enrolled(files: map<string, CodeFile>, m: Mapping) {
    m.path in files && files[m.path].identity == m.identity
  }

  predicate PathMatches(files: map<string, CodeFile>, maps: seq<Mapping>, path: string, page: nat)
    requires IsPage(page) && AllProper(OfPath(maps, path))
  {
    && path in files
    && Matches(files[path].segments, OfPath(maps, path), page, files[path].fixed)
    && (files[path].interpreter.Some? ==> OfPath(maps, files[path].interpreter.value) != [])
  }

  /** What match_maps accepts: only enrolled files, and each of them matched with its whole layout and its loader present. */
  predicate ProcessMatches(files: map<string, CodeFile>, maps: seq<Mapping>, page: nat)
    requires IsPage(page) && Ascending(maps)
  {
    forall i :: 0 <= i < |maps| ==>
      Enrolled(files, maps[i]) && (OfPathAscends(maps, maps[i].path); PathMatches(files, maps, maps[i].path, page))
  }

  method MatchMaps(files: map<string, CodeFile>, maps: seq<Mapping>, page: nat) returns (ok: bool)
    requires IsPage(page) && Ascending(maps)
    ensures ok <==> ProcessMatches(files, maps, page)
  {
    var i := 0;
    while i < |maps|
      invariant 0 <= i <= |maps| && forall j :: 0 <= j < i ==> Enrolled(files, maps[j])
    {
      if !Enrolled(files, maps[i]) {
        return false;
      }
      i := i + 1;
    }
    ok := MatchGroups(files, maps, page);
  }

  /** One group: its mappings against the whole layout of its file. */
  method MatchPath(files: map<string, CodeFile>, maps: seq<Mapping>, path: string, page: nat) returns (ok: bool)
    requires IsPage(page) && path in files && AllProper(OfPath(maps, path))
    ensures ok <==> PathMatches(files, maps, path, page)
  {
    var f := files[path];
    ok := MatchFile(f.segments, OfPath(maps, path), page, f.fixed);
    if ok && f.interpreter.Some? && OfPath(maps, f.interpreter.value) == [] {
      ok := false;
    }
  }

  predicate GroupDone(files: map<string, CodeFile>, maps: seq<Mapping>, page: nat, path: string)
    requires IsPage(page)
  {
    AllProper(OfPath(maps, path)) && PathMatches(files, maps, path, page)
  }

  /** The groups of the first i mappings match. */
  predicate GroupsDone(files: map<string, CodeFile>, maps: seq<Mapping>, page: nat, i: nat)
    requires IsPage(page) && i <= |maps|
  {
    i > 0 ==> GroupsDone(files, maps, page, i - 1) && GroupDone(files, maps, page, maps[i - 1].path)
  }

  lemma {:induction false} OneOfTheGroups(files: map<string, CodeFile>, maps: seq<Mapping>, page: nat, i: nat, j: nat)
    requires IsPage(page) && j < i <= |maps| && GroupsDone(files, maps, page, i)
    ensures GroupDone(files, maps, page, maps[j].path)
  {
    if j < i - 1 {
      OneOfTheGroups(files, maps, page, i - 1, j);
    }
  }

  lemma {:induction false} AllGroupsMatch(files: map<string, CodeFile>, maps: seq<Mapping>, page: nat)
    requires IsPage(page) && Ascending(maps) && (forall j :: 0 <= j < |maps| ==> Enrolled(files, maps[j]))
    requires GroupsDone(files, maps, page, |maps|)
    ensures ProcessMatches(files, maps, page)
  {
    forall j | 0 <= j < |maps|
      ensures AllProper(OfPath(maps, maps[j].path)) && PathMatches(files, maps, maps[j].path, page)
    {
      OneOfTheGroups(files, maps, page, |maps|, j);
    }
  }

  method MatchGroups(files: map<string, CodeFile>, maps: seq<Mapping>, page: nat) returns (ok: bool)
    requires IsPage(page) && Ascending(maps) && forall j :: 0 <= j < |maps| ==> Enrolled(files, maps[j])
    ensures ok <==> ProcessMatches(files, maps, page)
  {
    var done: set<string>, i := {}, 0;
    while i < |maps|
      invariant 0 <= i <= |maps| && GroupsDone(files, maps, page, i)
      invariant forall path :: path in done ==> exists j :: 0 <= j < i && maps[j].path == path
    {
      var path := maps[i].path;
      if path in done {
        ghost var j :| 0 <= j < i && maps[j].path == path;
        OneOfTheGroups(files, maps, page, i, j);
      } else {
        OfPathAscends(maps, path);
        var matched := MatchPath(files, maps, path, page);
        if !matched {
          NotAccepted(files, maps, page, i);
          return false;
        }
        done := done + {path};
      }
      i := i + 1;
    }
    AllGroupsMatch(files, maps, page);
    ok := true;
  }

  lemma {:induction false} NotAccepted(files: map<string, CodeFile>, maps: seq<Mapping>, page: nat, i: nat)
    requires IsPage(page) && Ascending(maps) && i < |maps| && AllProper(OfPath(maps, maps[i].path))
    requires !PathMatches(files, maps, maps[i].path, page)
    ensures !ProcessMatches(files, maps, page)
  {
  }

  /** The mappings `_proc_code_maps` returns are in order, as the matcher needs them. */
  lemma {:induction false} CodeMapsAscend(rows: seq<MapRow>, page: nat, x86: bool, vdsoAddress: nat)
    requires IsPage(page) && CodeMapsOf(rows, page, x86, vdsoAddress).Some?
    ensures Ascending(CodeMapsOf(rows, page, x86, vdsoAddress).value)
  {
    MapsAscend(rows, page, x86, vdsoAddress);
  }

  /** `match_maps` on the lines of a maps file. */
  predicate MapsAccepted(files: map<string, CodeFile>, rows: seq<MapRow>, page: nat, x86: bool, vdsoAddress: nat)
    requires IsPage(page)
  {
    && CodeMapsOf(rows, page, x86, vdsoAddress).Some?
    && (CodeMapsAscend(rows, page, x86, vdsoAddress);
        ProcessMatches(files, CodeMapsOf(rows, page, x86, vdsoAddress).value, page))
  }

  method MatchLines(files: map<string, CodeFile>, rows: seq<MapRow>, page: nat, x86: bool, vdsoAddress: nat) returns (ok: bool)
    requires IsPage(page)
    ensures ok <==> MapsAccepted(files, rows, page, x86, vdsoAddress)
  {
    var maps := ProcCodeMaps(rows, page, x86, vdsoAddress);
    if maps.None? {
      return false;
    }
    CodeMapsAscend(rows, page, x86, vdsoAddress);
    ok := MatchMaps(files, maps.value, page);
  }

  /** All code of a file at one bias: each of its bytes in exactly one of all mappings, and no mapping of the file left over. */
  ghost predicate WholeAt(headers: seq<Header>, maps: seq<Mapping>, page: nat, path: string, bias: int)
    requires IsPage(page)
  {
    && (forall h, f :: h in headers && CodeLoad(h) && h.offset <= f < h.offset + h.memory ==> ByteMapped(h, f, maps, bias))
    && (forall m :: m in maps && m.path == path ==> exists h :: h in headers && CodeLoad(h) && Placed(SegmentOf(h, page), m, bias))
  }

  lemma {:induction false} AcceptedPath(files: map<string, CodeFile>, maps: seq<Mapping>, page: nat, m: Mapping)
    requires IsPage(page) && Ascending(maps) && ProcessMatches(files, maps, page) && m in maps
    ensures AllProper(OfPath(maps, m.path)) && Enrolled(files, m) && PathMatches(files, maps, m.path, page)
  {
    OfPathAscends(maps, m.path);
    var i :| 0 <= i < |maps| && maps[i] == m;
    assert Enrolled(files, maps[i]) && PathMatches(files, maps, maps[i].path, page);
  }

  /** In an accepted process every mapped file is whole at one permitted bias. */
  lemma {:induction false} EveryMappedFileIsWhole(files: map<string, CodeFile>, maps: seq<Mapping>, page: nat, first: Mapping,
                                                  headers: seq<Header>, fileSize: nat) returns (bias: int)
    requires IsPage(page) && Ascending(maps) && ProcessMatches(files, maps, page) && first in maps
    requires first.path in files && CodeLayout(headers, fileSize, page) == Some(files[first.path].segments)
    ensures BiasOk(bias, page, files[first.path].fixed) && WholeAt(headers, maps, page, first.path, bias)
  {
    var path := first.path;
    OfPathAscends(maps, path);
    AcceptedPath(files, maps, page, first);
    bias := EveryCodeByteMapped(headers, fileSize, OfPath(maps, path), page, files[path].fixed);
    forall h, f | h in headers && CodeLoad(h) && h.offset <= f < h.offset + h.memory
      ensures ByteMapped(h, f, maps, bias)
    {
      assert ByteMapped(h, f, OfPath(maps, path), bias);
      MappedAmongAll(h, f, maps, path, bias);
    }
    forall m | m in maps && m.path == path
      ensures exists h :: h in headers && CodeLoad(h) && Placed(SegmentOf(h, page), m, bias)
    {
      OfPathMembers(maps, path, m);
    }
  }

  /** The program headers and sizes of the enrolled files. */
  type Elves = map<string, (seq<Header>, nat)>

  predicate LaidOut(files: map<string, CodeFile>, elves: Elves, page: nat)
    requires IsPage(page)
  {
    forall path :: path in files ==>
      path in elves && CodeLayout(elves[path].0, elves[path].1, page) == Some(files[path].segments)
  }

  /** A line of the maps file accounted for: a kernel page, or a mapping of an enrolled file that is whole at one bias. */
  ghost predicate Accounted(files: map<string, CodeFile>, elves: Elves, maps: seq<Mapping>, page: nat, x86: bool, vdsoAddress: nat, r: MapRow)
    requires IsPage(page) && LaidOut(files, elves, page)
  {
    match r.place
    case Anonymous => false
    case Kernel(_) => SpecialOk(r, x86, vdsoAddress)
    case File(path) =>
      && FileMapping(r) in maps && path in files && files[path].identity == r.identity
      && exists bias :: BiasOk(bias, page, files[path].fixed) && WholeAt(elves[path].0, maps, page, path, bias)
  }

  /**
    From the lines of the maps file to the files: in an accepted process every executable line is a kernel page
    at its place, or shows code of an enrolled file all of which is in memory at that file's one bias.
   */
  lemma {:induction false} EveryCodeLineAccounted(files: map<string, CodeFile>, elves: Elves, rows: seq<MapRow>, page: nat,
                                                  x86: bool, vdsoAddress: nat, i: nat)
    requires IsPage(page) && LaidOut(files, elves, page)
    requires MapsAccepted(files, rows, page, x86, vdsoAddress)
    requires i < |rows| && IsCode(rows[i])
    ensures Accounted(files, elves, CodeMapsOf(rows, page, x86, vdsoAddress).value, page, x86, vdsoAddress, rows[i])
    ensures rows[i].permissions[1] == '-'
  {
    var maps, r := CodeMapsOf(rows, page, x86, vdsoAddress).value, rows[i];
    MapsAscend(rows, page, x86, vdsoAddress);
    assert Kept(r, maps);
    if r.place.Kernel? {
      KernelLinesSpecial(rows, page, x86, vdsoAddress, i);
    } else {
      var m := FileMapping(r);
      AcceptedPath(files, maps, page, m);
      var bias := EveryMappedFileIsWhole(files, maps, page, m, elves[m.path].0, elves[m.path].1);
    }
  }

  lemma {:induction false} MappedAmongAll(h: Header, f: int, maps: seq<Mapping>, path: string, bias: int)
    requires Ascending(maps) && ByteMapped(h, f, OfPath(maps, path), bias)
    ensures ByteMapped(h, f, maps, bias)
  {
    var address := h.address + (f - h.offset) + bias;
    var m :| m in OfPath(maps, path) && Maps(m, address) && m.offset + (address - m.start) == f;
    OfPathMembers(maps, path, m);
    forall y | y in maps && Maps(y, address)
      ensures y == m
    {
      if y != m {
        AscendingDistinct(maps, m, y);
      }
    }
  }
}
