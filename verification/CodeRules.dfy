/** Which program headers, maps lines and processes are accepted, read off the headers and lines themselves. */
module CodeRules {
  import opened Prelude
  import opened CodeMaps
  import opened MapMatcher

  // ---------------------------------------------------------------- program headers

  predicate IsLoad(h: Header) {
    h.tag == 1
  }

  predicate IsCodeLoad(h: Header) {
    h.tag == 1 && h.perms % 2 == 1
  }

  function Two(k: nat): nat {
    if k == 0 then 1 else 2 * Two(k - 1)
  }

  predicate InFile(h: Header, fileSize: nat) {
    h.offset + h.size <= fileSize && h.address + h.memory <= 18446744073709551616
  }

  /** No header may ask for an executable stack. */
  predicate NoExecutableStack(h: Header) {
    h.tag == 0x6474e551 ==> h.perms % 2 == 0
  }

  /** A load that fits itself, with its address and its place in the file alike in every page and alignment. */
  ghost predicate Congruent(h: Header, page: nat)
    requires page > 0
  {
    && h.perms <= 7 && h.size <= h.memory && h.memory > 0 && h.address % page == h.offset % page
    && (h.alignment == 0 || exists k: nat :: h.alignment == Two(k))
    && (h.alignment > 1 ==> h.address % h.alignment == h.offset % h.alignment)
  }

  function Pages(x: nat, page: nat): nat
    requires page > 0
  {
    (x + page - 1) / page
  }

  /** Code is not writable, not empty, has no page beyond its file pages, and is at most 64 MiB long. */
  predicate PlainCode(h: Header, page: nat)
    requires page > 0
  {
    && h.perms / 2 % 2 == 0 && h.size > 0
    && Pages(h.offset + h.memory, page) == Pages(h.offset + h.size, page)
    && Pages(h.offset + h.size, page) * page <= h.offset / page * page + 67108864
  }

  /** The executable loads, in header order. */
  function CodeOf(headers: seq<Header>): seq<Header> {
    if headers == [] then []
    else CodeOf(headers[..|headers| - 1]) + if IsCodeLoad(headers[|headers| - 1]) then [headers[|headers| - 1]] else []
  }

  function Times(n: nat, page: nat): nat {
    n * page
  }

  /** The segment of an executable load, in whole pages. */
  function Expected(h: Header, page: nat): Segment
    requires page > 0
  {
    var start, end := Times(h.offset / page, page), Times(Pages(h.offset + h.size, page), page);
    Segment(start, if start <= end then end - start else 0, if h.perms / 4 % 2 == 1 then "r-xp" else "--xp", Times(h.address / page, page))
  }

  ghost predicate HeadersSound(headers: seq<Header>, fileSize: nat, page: nat)
    requires page > 0
  {
    && (forall h :: h in headers ==> InFile(h, fileSize) && NoExecutableStack(h))
    && (forall h :: h in headers && IsLoad(h) ==> Congruent(h, page))
    && (forall h :: h in headers && IsCodeLoad(h) ==> PlainCode(h, page))
    && (forall i, j :: 0 <= i < j < |headers| && IsLoad(headers[i]) && IsLoad(headers[j]) ==>
          headers[i].address + headers[i].memory <= headers[j].address)
    && |CodeOf(headers)| <= 16
  }

  // ---------------------------------------------------------------- one header

  lemma {:induction false} WhichPower(n: nat) returns (k: nat)
    requires PowerOfTwo(n)
    ensures n == Two(k)
  {
    if n == 1 {
      k := 0;
    } else {
      var half := WhichPower(n / 2);
      k := half + 1;
    }
  }

  lemma {:induction false} TwoIsPower(k: nat)
    ensures PowerOfTwo(Two(k)) && Two(k) > 0
  {
    if k > 0 {
      TwoIsPower(k - 1);
    }
  }

  lemma {:induction false} DownIs(x: nat, page: nat)
    requires IsPage(page)
    ensures Down(x, page) == x / page * page && Up(x, page) == Pages(x, page) * page
  {
    if page == 4096 {
    } else if page == 16384 {
    } else {
    }
  }

  lemma {:induction false} SamePages(x: nat, y: nat, page: nat)
    requires IsPage(page)
    ensures Up(x, page) == Up(y, page) <==> Pages(x, page) == Pages(y, page)
  {
    DownIs(x, page);
    DownIs(y, page);
    if page == 4096 {
    } else if page == 16384 {
    } else {
    }
  }

  lemma {:induction false} ExpectedIs(h: Header, page: nat)
    requires IsPage(page)
    ensures SegmentOf(h, page) == Expected(h, page)
  {
    DownIs(h.offset, page);
    DownIs(h.address, page);
    DownIs(h.offset + h.size, page);
    assert "r" + "-xp" == "r-xp" && "-" + "-xp" == "--xp";
  }

  lemma {:induction false} LoadIs(h: Header, page: nat, lastEnd: nat)
    requires IsPage(page)
    ensures LoadShape(h, page, lastEnd) <==> Congruent(h, page) && lastEnd <= h.address
  {
    if LoadShape(h, page, lastEnd) && h.alignment != 0 {
      var k := WhichPower(h.alignment);
    }
    if h.alignment != 0 && exists k: nat :: h.alignment == Two(k) {
      var k: nat :| h.alignment == Two(k);
      TwoIsPower(k);
    }
  }

  lemma {:induction false} CodeIs(h: Header, page: nat)
    requires IsPage(page)
    ensures CodeShape(h, page) <==> PlainCode(h, page)
  {
    SamePages(h.offset + h.memory, h.offset + h.size, page);
    DownIs(h.offset, page);
    DownIs(h.offset + h.size, page);
  }

  // ---------------------------------------------------------------- all headers

  /** Where the last load ends. */
  function LastEnd(headers: seq<Header>): nat {
    if headers == [] then 0
    else if IsLoad(headers[|headers| - 1]) then headers[|headers| - 1].address + headers[|headers| - 1].memory
    else LastEnd(headers[..|headers| - 1])
  }

  ghost predicate LoadsOrdered(headers: seq<Header>) {
    forall i, j :: 0 <= i < j < |headers| && IsLoad(headers[i]) && IsLoad(headers[j]) ==>
      headers[i].address + headers[i].memory <= headers[j].address
  }

  lemma {:induction false} LastEndIsMost(headers: seq<Header>, i: nat)
    requires LoadsOrdered(headers) && i < |headers| && IsLoad(headers[i])
    ensures headers[i].address + headers[i].memory <= LastEnd(headers)
  {
    var n := |headers| - 1;
    if !IsLoad(headers[n]) {
      LastEndIsMost(headers[..n], i);
    }
  }

  lemma {:induction false} LastEndIsSome(headers: seq<Header>, address: nat)
    requires forall i :: 0 <= i < |headers| && IsLoad(headers[i]) ==> headers[i].address + headers[i].memory <= address
    ensures LastEnd(headers) <= address
  {
    if headers != [] {
      LastEndIsSome(headers[..|headers| - 1], address);
    }
  }

  lemma {:induction false} OrderedMore(headers: seq<Header>)
    requires headers != []
    ensures var before, last := headers[..|headers| - 1], headers[|headers| - 1];
            LoadsOrdered(headers) <==> LoadsOrdered(before) && (IsLoad(last) ==> LastEnd(before) <= last.address)
  {
    var n := |headers| - 1;
    var before, last := headers[..n], headers[n];
    if LoadsOrdered(headers) {
      if IsLoad(last) {
        LastEndIsSome(before, last.address);
      }
    }
    if LoadsOrdered(before) && (IsLoad(last) ==> LastEnd(before) <= last.address) {
      forall i, j | 0 <= i < j < |headers| && IsLoad(headers[i]) && IsLoad(headers[j])
        ensures headers[i].address + headers[i].memory <= headers[j].address
      {
        assert headers[i] == before[i];
        if j < n {
          assert headers[j] == before[j];
        } else {
          LastEndIsMost(before, i);
        }
      }
    }
  }

  /** Everything one header must be, beside its place among the loads. */
  ghost predicate HeaderSound(h: Header, fileSize: nat, page: nat)
    requires page > 0
  {
    && InFile(h, fileSize) && NoExecutableStack(h)
    && (IsLoad(h) ==> Congruent(h, page)) && (IsCodeLoad(h) ==> PlainCode(h, page))
  }

  lemma {:induction false} SoundMore(headers: seq<Header>, fileSize: nat, page: nat)
    requires page > 0 && headers != []
    ensures var before, last := headers[..|headers| - 1], headers[|headers| - 1];
            HeadersSound(headers, fileSize, page) <==>
              && HeadersSound(before, fileSize, page) && HeaderSound(last, fileSize, page)
              && (IsLoad(last) ==> LastEnd(before) <= last.address)
              && (IsCodeLoad(last) ==> |CodeOf(before)| < 16)
  {
    OrderedMore(headers);
    var before, last := headers[..|headers| - 1], headers[|headers| - 1];
    assert headers == before + [last];
    assert LoadsOrdered(headers) <==> LoadsOrdered(before) && (IsLoad(last) ==> LastEnd(before) <= last.address);
    AllSoundMore(before, last, fileSize, page);
  }

  ghost predicate AllSound(headers: seq<Header>, fileSize: nat, page: nat)
    requires page > 0
  {
    forall h :: h in headers ==> HeaderSound(h, fileSize, page)
  }

  lemma {:induction false} AllSoundMore(before: seq<Header>, last: Header, fileSize: nat, page: nat)
    requires page > 0
    ensures AllSound(before + [last], fileSize, page) <==> AllSound(before, fileSize, page) && HeaderSound(last, fileSize, page)
  {
    assert last in before + [last];
  }

  lemma {:induction false} StepIs(so: Layout, h: Header, fileSize: nat, page: nat)
    requires IsPage(page)
    ensures LayoutStep(so, h, fileSize, page).Some? <==>
            && HeaderSound(h, fileSize, page) && (IsLoad(h) ==> so.lastEnd <= h.address) && (IsCodeLoad(h) ==> |so.segments| < 16)
    ensures LayoutStep(so, h, fileSize, page).Some? ==>
            LayoutStep(so, h, fileSize, page).value ==
              Layout(so.segments + (if IsCodeLoad(h) then [Expected(h, page)] else []), if IsLoad(h) then h.address + h.memory else so.lastEnd)
  {
    LoadIs(h, page, so.lastEnd);
    CodeIs(h, page);
    ExpectedIs(h, page);
    assert so.segments + [] == so.segments;
  }

  function ExpectedAll(code: seq<Header>, page: nat): (s: seq<Segment>)
    requires page > 0
    ensures |s| == |code|
  {
    if code == [] then [] else ExpectedAll(code[..|code| - 1], page) + [Expected(code[|code| - 1], page)]
  }

  lemma {:induction false} ExpectedMore(code: seq<Header>, h: Header, page: nat)
    requires page > 0
    ensures ExpectedAll(code + [h], page) == ExpectedAll(code, page) + [Expected(h, page)]
  {
    assert (code + [h])[..|code|] == code;
  }

  lemma {:induction false} ExpectedAt(code: seq<Header>, page: nat, k: nat)
    requires page > 0 && k < |code|
    ensures ExpectedAll(code, page)[k] == Expected(code[k], page)
  {
    if k < |code| - 1 {
      ExpectedAt(code[..|code| - 1], page, k);
    }
  }

  /** The header loop accepts exactly the sound headers, with the segments of their code and the end of their last load. */
  lemma {:induction false} LayoutExactly(headers: seq<Header>, fileSize: nat, page: nat)
    requires IsPage(page)
    ensures LayoutOf(headers, fileSize, page).Some? <==> HeadersSound(headers, fileSize, page)
    ensures LayoutOf(headers, fileSize, page).Some? ==>
            LayoutOf(headers, fileSize, page).value == Layout(ExpectedAll(CodeOf(headers), page), LastEnd(headers))
  {
    if headers != [] {
      var before, last := headers[..|headers| - 1], headers[|headers| - 1];
      LayoutExactly(before, fileSize, page);
      SoundMore(headers, fileSize, page);
      StepIs(Layout(ExpectedAll(CodeOf(before), page), LastEnd(before)), last, fileSize, page);
      ExpectedMore(CodeOf(before), last, page);
      assert CodeOf(before) + [] == CodeOf(before);
    }
  }

  /** Between one and sixteen code segments, no two with the same offset and length. */
  predicate Told(segments: seq<Segment>) {
    && 1 <= |segments| <= 16
    && forall i, j :: 0 <= i < j < |segments| ==> !(segments[i].offset == segments[j].offset && segments[i].length == segments[j].length)
  }

  /** A file is accepted if and only if its headers are sound and its code segments told apart; the result is those segments. */
  lemma {:induction false} CodeLayoutExactly(headers: seq<Header>, fileSize: nat, page: nat)
    requires IsPage(page)
    ensures CodeLayout(headers, fileSize, page).Some? <==>
            HeadersSound(headers, fileSize, page) && Told(ExpectedAll(CodeOf(headers), page))
    ensures CodeLayout(headers, fileSize, page).Some? ==>
            var s := CodeLayout(headers, fileSize, page).value;
            && |s| == |CodeOf(headers)|
            && forall k :: 0 <= k < |s| ==> s[k] == Expected(CodeOf(headers)[k], page)
  {
    LayoutExactly(headers, fileSize, page);
    forall k | 0 <= k < |CodeOf(headers)|
      ensures ExpectedAll(CodeOf(headers), page)[k] == Expected(CodeOf(headers)[k], page)
    {
      ExpectedAt(CodeOf(headers), page, k);
    }
  }

  // ---------------------------------------------------------------- the lines of a maps file

  /** A line of whole pages with the four permission letters, never both writable and executable. */
  predicate PlainLine(r: MapRow, page: nat)
    requires page > 0
  {
    && |r.permissions| == 4 && r.permissions[0] in "r-" && r.permissions[1] in "w-" && r.permissions[2] in "x-" && r.permissions[3] in "ps"
    && r.begin < r.end && r.begin % page == 0 && r.end % page == 0 && r.offset % page == 0
    && !(r.permissions[1] == 'w' && r.permissions[2] == 'x')
  }

  predicate IsX(r: MapRow) {
    |r.permissions| == 4 && r.permissions[2] == 'x'
  }

  predicate IsKernelPage(r: MapRow, vdso: bool) {
    IsX(r) && r.place == Kernel(vdso)
  }

  predicate IsFilePage(r: MapRow) {
    IsX(r) && r.place.File?
  }

  /** What an executable line may map: a file, the vdso where it was announced, or the one vsyscall page of x86. */
  predicate KnownCode(r: MapRow, x86: bool, vdsoAddress: nat) {
    match r.place
    case Anonymous => false
    case File(_) => r.identity.2 > 0
    case Kernel(vdso) =>
      && r.offset == 0 && r.identity == (0, 0, 0)
      && (vdso ==> r.begin == vdsoAddress && r.permissions == "r-xp" && r.end - r.begin <= 1048576)
      && (!vdso ==> x86 && r.begin == 18446744073699065856 && r.end - r.begin == 4096 && r.permissions == "--xp")
  }

  predicate LineSound(r: MapRow, page: nat, x86: bool, vdsoAddress: nat)
    requires page > 0
  {
    PlainLine(r, page) && (IsX(r) ==> KnownCode(r, x86, vdsoAddress))
  }

  function CountX(rows: seq<MapRow>): nat {
    if rows == [] then 0 else CountX(rows[..|rows| - 1]) + if IsX(rows[|rows| - 1]) then 1 else 0
  }

  /** The executable file mappings, in order. */
  function FilesOf(rows: seq<MapRow>): seq<Mapping> {
    if rows == [] then []
    else FilesOf(rows[..|rows| - 1]) + if IsFilePage(rows[|rows| - 1]) then [FileMapping(rows[|rows| - 1])] else []
  }

  predicate HasKernel(rows: seq<MapRow>, vdso: bool) {
    exists i :: 0 <= i < |rows| && IsKernelPage(rows[i], vdso)
  }

  predicate LinesSound(rows: seq<MapRow>, page: nat, x86: bool, vdsoAddress: nat)
    requires page > 0
  {
    && (forall i :: 0 <= i < |rows| ==> LineSound(rows[i], page, x86, vdsoAddress))
    && (forall i, j :: 0 <= i < j < |rows| ==> rows[i].end <= rows[j].begin)
    && (forall i, j, vdso :: 0 <= i < j < |rows| ==> !(IsKernelPage(rows[i], vdso) && IsKernelPage(rows[j], vdso)))
    && CountX(rows) <= 256
  }

  function PreviousEnd(rows: seq<MapRow>): nat {
    if rows == [] then 0 else rows[|rows| - 1].end
  }

  /** One more line among sound ones. */
  predicate FitsBehind(rows: seq<MapRow>, r: MapRow, page: nat, x86: bool, vdsoAddress: nat)
    requires page > 0
  {
    && LineSound(r, page, x86, vdsoAddress) && PreviousEnd(rows) <= r.begin
    && (forall vdso :: IsKernelPage(r, vdso) ==> !HasKernel(rows, vdso))
    && (IsX(r) ==> CountX(rows) < 256)
  }

  lemma {:induction false} EndsGrow(rows: seq<MapRow>, page: nat, x86: bool, vdsoAddress: nat, i: nat)
    requires page > 0 && LinesSound(rows, page, x86, vdsoAddress) && i < |rows|
    ensures rows[i].end <= PreviousEnd(rows)
  {
    var n := |rows| - 1;
    assert LineSound(rows[n], page, x86, vdsoAddress);
    if i < n {
      assert rows[i].end <= rows[n].begin;
    }
  }

  lemma {:induction false} SoundThenFits(rows: seq<MapRow>, r: MapRow, page: nat, x86: bool, vdsoAddress: nat)
    requires page > 0 && LinesSound(rows + [r], page, x86, vdsoAddress)
    ensures LinesSound(rows, page, x86, vdsoAddress) && FitsBehind(rows, r, page, x86, vdsoAddress)
  {
    var all := rows + [r];
    assert all[..|rows|] == rows && all[|rows|] == r;
    assert forall i :: 0 <= i < |rows| ==> all[i] == rows[i];
    assert LineSound(all[|rows|], page, x86, vdsoAddress);
    if rows != [] {
      assert all[|rows| - 1].end <= all[|rows|].begin;
    }
    forall vdso, i | IsKernelPage(r, vdso) && 0 <= i < |rows|
      ensures !IsKernelPage(rows[i], vdso)
    {
      assert all[i] == rows[i];
    }
  }

  lemma {:induction false} FitsThenSound(rows: seq<MapRow>, r: MapRow, page: nat, x86: bool, vdsoAddress: nat)
    requires page > 0 && LinesSound(rows, page, x86, vdsoAddress) && FitsBehind(rows, r, page, x86, vdsoAddress)
    ensures LinesSound(rows + [r], page, x86, vdsoAddress)
  {
    var all := rows + [r];
    assert all[..|rows|] == rows && all[|rows|] == r;
    forall i | 0 <= i < |all|
      ensures LineSound(all[i], page, x86, vdsoAddress)
    {
      if i < |rows| {
        assert all[i] == rows[i];
      }
    }
    forall i, j | 0 <= i < j < |all|
      ensures all[i].end <= all[j].begin
    {
      assert all[i] == rows[i];
      if j < |rows| {
        assert all[j] == rows[j];
      } else {
        EndsGrow(rows, page, x86, vdsoAddress, i);
      }
    }
    KernelsDiffer(rows, r);
  }

  lemma {:induction false} KernelsDiffer(rows: seq<MapRow>, r: MapRow)
    requires forall i, j, vdso :: 0 <= i < j < |rows| ==> !(IsKernelPage(rows[i], vdso) && IsKernelPage(rows[j], vdso))
    requires forall vdso :: IsKernelPage(r, vdso) ==> !HasKernel(rows, vdso)
    ensures var all := rows + [r];
            forall i, j, vdso :: 0 <= i < j < |all| ==> !(IsKernelPage(all[i], vdso) && IsKernelPage(all[j], vdso))
  {
    var all := rows + [r];
    forall i, j, vdso | 0 <= i < j < |all|
      ensures !(IsKernelPage(all[i], vdso) && IsKernelPage(all[j], vdso))
    {
      assert all[i] == rows[i];
      if j < |rows| {
        assert all[j] == rows[j];
      }
    }
  }

  /** What the loop has seen of some lines. */
  predicate SawAll(so: Seen, rows: seq<MapRow>) {
    && so.files == FilesOf(rows) && so.previousEnd == PreviousEnd(rows)
    && (so.vdso <==> HasKernel(rows, true)) && (so.vsyscall <==> HasKernel(rows, false))
    && |so.files| + (if so.vdso then 1 else 0) + (if so.vsyscall then 1 else 0) == CountX(rows)
  }

  lemma {:induction false} KernelMore(rows: seq<MapRow>, r: MapRow, vdso: bool)
    ensures HasKernel(rows + [r], vdso) <==> HasKernel(rows, vdso) || IsKernelPage(r, vdso)
  {
    var all := rows + [r];
    if HasKernel(rows, vdso) {
      var i :| 0 <= i < |rows| && IsKernelPage(rows[i], vdso);
      assert all[i] == rows[i];
    }
    assert all[|rows|] == r;
  }

  lemma {:induction false} SpecialIs(r: MapRow, x86: bool, vdsoAddress: nat)
    requires r.place.Kernel? && r.begin < r.end
    ensures SpecialOk(r, x86, vdsoAddress) <==> KnownCode(r, x86, vdsoAddress)
  {
  }

  lemma {:induction false} LineStep(so: Seen, rows: seq<MapRow>, r: MapRow, page: nat, x86: bool, vdsoAddress: nat)
    requires IsPage(page) && SawAll(so, rows)
    ensures MapStep(so, r, page, x86, vdsoAddress).Some? <==> FitsBehind(rows, r, page, x86, vdsoAddress)
  {
    if r.place.Kernel? && r.begin < r.end {
      SpecialIs(r, x86, vdsoAddress);
    }
    assert IsKernelPage(r, true) ==> !IsKernelPage(r, false);
  }

  lemma {:induction false} LineSeen(so: Seen, rows: seq<MapRow>, r: MapRow, page: nat, x86: bool, vdsoAddress: nat)
    requires IsPage(page) && SawAll(so, rows) && MapStep(so, r, page, x86, vdsoAddress).Some?
    ensures SawAll(MapStep(so, r, page, x86, vdsoAddress).value, rows + [r])
  {
    var all := rows + [r];
    assert all[..|rows|] == rows && all[|rows|] == r && FilesOf(rows) + [] == FilesOf(rows);
    KernelMore(rows, r, true);
    KernelMore(rows, r, false);
  }

  /** The line loop accepts exactly the sound lines, and has seen their files and kernel pages. */
  lemma {:induction false} MapsExactly(rows: seq<MapRow>, page: nat, x86: bool, vdsoAddress: nat)
    requires IsPage(page)
    ensures MapsOf(rows, page, x86, vdsoAddress).Some? <==> LinesSound(rows, page, x86, vdsoAddress)
    ensures MapsOf(rows, page, x86, vdsoAddress).Some? ==> SawAll(MapsOf(rows, page, x86, vdsoAddress).value, rows)
  {
    if rows != [] {
      var before, last := rows[..|rows| - 1], rows[|rows| - 1];
      assert rows == before + [last];
      MapsExactly(before, page, x86, vdsoAddress);
      if MapsOf(before, page, x86, vdsoAddress).Some? {
        var so := MapsOf(before, page, x86, vdsoAddress).value;
        LineStep(so, before, last, page, x86, vdsoAddress);
        if FitsBehind(before, last, page, x86, vdsoAddress) {
          FitsThenSound(before, last, page, x86, vdsoAddress);
          LineSeen(so, before, last, page, x86, vdsoAddress);
        }
      }
      if LinesSound(rows, page, x86, vdsoAddress) {
        SoundThenFits(before, last, page, x86, vdsoAddress);
      }
    }
  }

  /** A maps file is accepted if and only if its lines are sound, one maps the vdso and one a file; the result is its file mappings. */
  lemma {:induction false} CodeMapsExactly(rows: seq<MapRow>, page: nat, x86: bool, vdsoAddress: nat)
    requires IsPage(page)
    ensures CodeMapsOf(rows, page, x86, vdsoAddress) ==
            if LinesSound(rows, page, x86, vdsoAddress) && HasKernel(rows, true) && FilesOf(rows) != [] then Some(FilesOf(rows)) else None
  {
    MapsExactly(rows, page, x86, vdsoAddress);
  }

  // ---------------------------------------------------------------- a process

  /** Enrolled files have code, in disjoint ranges of the file. */
  ghost predicate Enrolling(files: map<string, CodeFile>) {
    forall path :: path in files ==>
      files[path].segments != [] && Lengths(files[path].segments) && RangesDisjoint(files[path].segments)
  }

  /** All mappings of one path are an exact split of its file's code, at one bias in whole pages, none for a fixed address. */
  ghost predicate WholeFile(f: CodeFile, maps: seq<Mapping>, page: nat)
    requires page > 0
  {
    exists bias :: bias >= 0 && bias % page == 0 && (f.fixed ==> bias == 0) && ExactSplit(f.segments, maps, bias)
  }

  ghost predicate PathAccounted(files: map<string, CodeFile>, maps: seq<Mapping>, page: nat, m: Mapping)
    requires page > 0
  {
    && m.path in files && m.identity == files[m.path].identity && WholeFile(files[m.path], OfPath(maps, m.path), page)
    && (files[m.path].interpreter.Some? ==> exists x :: x in maps && x.path == files[m.path].interpreter.value)
  }

  lemma {:induction false} SplitIs(f: CodeFile, maps: seq<Mapping>, page: nat)
    requires IsPage(page) && Ascending(maps) && f.segments != [] && Lengths(f.segments) && RangesDisjoint(f.segments)
    ensures AllProper(maps) && (Matches(f.segments, maps, page, f.fixed) <==> WholeFile(f, maps, page))
  {
    AcceptsExactlyTheSplits(f.segments, maps, page, f.fixed);
    if WholeFile(f, maps, page) {
      var bias :| bias >= 0 && bias % page == 0 && (f.fixed ==> bias == 0) && ExactSplit(f.segments, maps, bias);
      assert BiasOk(bias, page, f.fixed);
    }
    if exists bias :: BiasOk(bias, page, f.fixed) && ExactSplit(f.segments, maps, bias) {
      var bias :| BiasOk(bias, page, f.fixed) && ExactSplit(f.segments, maps, bias);
      assert bias >= 0 && bias % page == 0;
    }
  }

  lemma {:induction false} PresentIs(maps: seq<Mapping>, path: string)
    ensures OfPath(maps, path) != [] <==> exists x :: x in maps && x.path == path
  {
    if OfPath(maps, path) != [] {
      OfPathMembers(maps, path, OfPath(maps, path)[0]);
    }
    if exists x :: x in maps && x.path == path {
      var x :| x in maps && x.path == path;
      OfPathMembers(maps, path, x);
    }
  }

  lemma {:induction false} PathIs(files: map<string, CodeFile>, maps: seq<Mapping>, page: nat, m: Mapping)
    requires IsPage(page) && Ascending(maps) && Enrolling(files)
    ensures AllProper(OfPath(maps, m.path))
    ensures Enrolled(files, m) && PathMatches(files, maps, m.path, page) <==> PathAccounted(files, maps, page, m)
  {
    OfPathAscends(maps, m.path);
    if m.path in files {
      SplitIs(files[m.path], OfPath(maps, m.path), page);
      if files[m.path].interpreter.Some? {
        PresentIs(maps, files[m.path].interpreter.value);
      }
    }
  }

  /**
    A process is accepted if and only if each of its code mappings belongs to an enrolled file of the same
    identity, the mappings of every such file are an exact split of its code, and its loader is mapped.
   */
  lemma {:induction false} ProcessExactly(files: map<string, CodeFile>, maps: seq<Mapping>, page: nat)
    requires IsPage(page) && Ascending(maps) && Enrolling(files)
    ensures ProcessMatches(files, maps, page) <==> forall m :: m in maps ==> PathAccounted(files, maps, page, m)
  {
    if ProcessMatches(files, maps, page) {
      forall m | m in maps
        ensures PathAccounted(files, maps, page, m)
      {
        AcceptedPath(files, maps, page, m);
        PathIs(files, maps, page, m);
      }
    }
    if forall m :: m in maps ==> PathAccounted(files, maps, page, m) {
      forall i | 0 <= i < |maps|
        ensures AllProper(OfPath(maps, maps[i].path)) && Enrolled(files, maps[i]) && PathMatches(files, maps, maps[i].path, page)
      {
        assert PathAccounted(files, maps, page, maps[i]);
        PathIs(files, maps, page, maps[i]);
      }
    }
  }
}
