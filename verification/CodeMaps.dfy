/**
  Executable mappings (live_proxy_server.py): the code segments an ELF file must have in memory, and the
  executable file mappings of a process.
 */
module CodeMaps {
  import opened Prelude

  // ---------------------------------------------------------------- pages

  predicate IsPage(page: nat) {
    page == 4096 || page == 16384 || page == 65536
  }

  function Down(x: nat, page: nat): nat
    requires IsPage(page)
  {
    x - x % page
  }

  function Up(x: nat, page: nat): nat
    requires IsPage(page)
  {
    (x + page - 1) / page * page
  }

  lemma {:induction false} Rounding(x: nat, page: nat)
    requires IsPage(page)
    ensures Down(x, page) <= x <= Up(x, page) < x + page
    ensures Down(x, page) % page == 0 && Up(x, page) % page == 0
  {
    if page == 4096 {
      RoundingTo4096(x);
    } else if page == 16384 {
      RoundingTo16384(x);
    } else {
      RoundingTo65536(x);
    }
  }

  lemma {:induction false} RoundingTo4096(x: nat)
    ensures Down(x, 4096) <= x <= Up(x, 4096) < x + 4096 && Down(x, 4096) % 4096 == 0 && Up(x, 4096) % 4096 == 0
  {
  }

  lemma {:induction false} RoundingTo16384(x: nat)
    ensures Down(x, 16384) <= x <= Up(x, 16384) < x + 16384 && Down(x, 16384) % 16384 == 0 && Up(x, 16384) % 16384 == 0
  {
  }

  lemma {:induction false} RoundingTo65536(x: nat)
    ensures Down(x, 65536) <= x <= Up(x, 65536) < x + 65536 && Down(x, 65536) % 65536 == 0 && Up(x, 65536) % 65536 == 0
  {
  }

  // ---------------------------------------------------------------- program headers

  const MAX_CODE := 67108864
  const PT_LOAD := 1
  const PT_GNU_STACK := 0x6474e551

  /** One program header; the interpreter string of PT_INTERP is read elsewhere. */
  datatype Header = Header(tag: nat, perms: nat, offset: nat, address: nat, size: nat, memory: nat, alignment: nat)

  predicate Executable(h: Header) {
    h.perms % 2 == 1
  }

  predicate Writable(h: Header) {
    h.perms / 2 % 2 == 1
  }

  predicate Readable(h: Header) {
    h.perms / 4 % 2 == 1
  }

  predicate PowerOfTwo(n: nat) {
    n == 1 || (n > 1 && n % 2 == 0 && PowerOfTwo(n / 2))
  }

  predicate CodeLoad(h: Header) {
    h.tag == PT_LOAD && Executable(h)
  }

  /** Where a file's code must appear, in whole pages. */
  datatype Segment = Segment(offset: nat, length: nat, permissions: string, address: nat)

  function SegmentOf(h: Header, page: nat): Segment
    requires IsPage(page)
  {
    var start, end := Down(h.offset, page), Up(h.offset + h.size, page);
    Segment(start, if end >= start then end - start else 0, (if Readable(h) then "r" else "-") + "-xp", Down(h.address, page))
  }

  predicate LoadShape(h: Header, page: nat, lastEnd: nat)
    requires IsPage(page)
  {
    && h.perms <= 7 && h.size <= h.memory && h.memory > 0 && h.address >= lastEnd
    && (h.alignment == 0 || PowerOfTwo(h.alignment))
    && (h.alignment > 1 ==> h.address % h.alignment == h.offset % h.alignment)
    && h.address % page == h.offset % page
  }

  predicate CodeShape(h: Header, page: nat)
    requires IsPage(page)
  {
    && !Writable(h) && h.size > 0
    && Up(h.offset + h.memory, page) == Up(h.offset + h.size, page)
    && Up(h.offset + h.size, page) - Down(h.offset, page) <= MAX_CODE
  }

  datatype Layout = Layout(segments: seq<Segment>, lastEnd: nat)

  /** One header of the loop of _elf_code_layout. */
  function LayoutStep(so: Layout, h: Header, fileSize: nat, page: nat): Option<Layout>
    requires IsPage(page)
  {
    if h.offset + h.size > fileSize || h.address + h.memory > 0x1_0000_0000_0000_0000 then None
    else if h.tag == PT_GNU_STACK && Executable(h) then None
    else if h.tag != PT_LOAD then Some(so)
    else if !LoadShape(h, page, so.lastEnd) then None
    else if !Executable(h) then Some(Layout(so.segments, h.address + h.memory))
    else if !CodeShape(h, page) || |so.segments| >= 16 then None
    else Some(Layout(so.segments + [SegmentOf(h, page)], h.address + h.memory))
  }

  function LayoutOf(headers: seq<Header>, fileSize: nat, page: nat): Option<Layout>
    requires IsPage(page)
  {
    if headers == [] then Some(Layout([], 0))
    else
      match LayoutOf(headers[..|headers| - 1], fileSize, page)
      case None => None
      case Some(so) => LayoutStep(so, headers[|headers| - 1], fileSize, page)
  }

  predicate DistinctCode(segments: seq<Segment>) {
    forall i, j :: 0 <= i < j < |segments| ==> (segments[i].offset, segments[i].length) != (segments[j].offset, segments[j].length)
  }

  /** The code segments of a file, or a refusal. */
  function CodeLayout(headers: seq<Header>, fileSize: nat, page: nat): Option<seq<Segment>>
    requires IsPage(page)
  {
    match LayoutOf(headers, fileSize, page)
    case None => None
    case Some(so) => if so.segments == [] || !DistinctCode(so.segments) then None else Some(so.segments)
  }

  lemma {:induction false} LayoutPrefix(headers: seq<Header>, fileSize: nat, page: nat, k: nat)
    requires IsPage(page) && k <= |headers| && LayoutOf(headers[..k], fileSize, page).None?
    ensures LayoutOf(headers, fileSize, page).None?
  {
    if k == |headers| {
      assert headers[..k] == headers;
    } else {
      var before := headers[..|headers| - 1];
      assert before[..k] == headers[..k];
      LayoutPrefix(before, fileSize, page, k);
    }
  }

  method ElfCodeLayout(headers: seq<Header>, fileSize: nat, page: nat) returns (r: Option<seq<Segment>>)
    requires IsPage(page)
    ensures r == CodeLayout(headers, fileSize, page)
  {
    var so := Layout([], 0);
    var i := 0;
    while i < |headers|
      invariant 0 <= i <= |headers| && LayoutOf(headers[..i], fileSize, page) == Some(so)
    {
      assert headers[..i + 1][..i] == headers[..i];
      var next := LayoutStep(so, headers[i], fileSize, page);
      if next.None? {
        LayoutPrefix(headers, fileSize, page, i + 1);
        return None;
      }
      so, i := next.value, i + 1;
    }
    assert headers[..i] == headers;
    if so.segments == [] || !DistinctCode(so.segments) {
      return None;
    }
    r := Some(so.segments);
  }

  /** Every executable load has its segment, and every segment comes from one. */
  lemma {:induction false} LayoutHasEveryLoad(headers: seq<Header>, fileSize: nat, page: nat)
    requires IsPage(page) && LayoutOf(headers, fileSize, page).Some?
    ensures var so := LayoutOf(headers, fileSize, page).value;
            && (forall h :: h in headers && CodeLoad(h) ==>
                  SegmentOf(h, page) in so.segments && CodeShape(h, page) && LoadShape(h, page, 0) && h.address + h.memory <= so.lastEnd)
            && (forall s :: s in so.segments ==> exists h :: h in headers && CodeLoad(h) && s == SegmentOf(h, page))
  {
    if headers != [] {
      var before, last := headers[..|headers| - 1], headers[|headers| - 1];
      LayoutHasEveryLoad(before, fileSize, page);
      assert headers == before + [last];
      var so, next := LayoutOf(before, fileSize, page).value, LayoutOf(headers, fileSize, page).value;
      forall s | s in next.segments
        ensures exists h :: h in headers && CodeLoad(h) && s == SegmentOf(h, page)
      {
        if s in so.segments {
          var h :| h in before && CodeLoad(h) && s == SegmentOf(h, page);
          assert h in headers;
        } else {
          assert s == SegmentOf(last, page) && CodeLoad(last) && last in headers;
        }
      }
    }
  }

  lemma {:induction false} LoadsEnd(headers: seq<Header>, fileSize: nat, page: nat)
    requires IsPage(page) && LayoutOf(headers, fileSize, page).Some?
    ensures forall h :: h in headers && h.tag == PT_LOAD ==> h.address + h.memory <= LayoutOf(headers, fileSize, page).value.lastEnd
  {
    if headers != [] {
      LoadsEnd(headers[..|headers| - 1], fileSize, page);
      assert headers == headers[..|headers| - 1] + [headers[|headers| - 1]];
    }
  }

  /** The loads of an accepted file, executable or not, are in address order and do not overlap in memory. */
  lemma {:induction false} LoadsDisjoint(headers: seq<Header>, fileSize: nat, page: nat, i: nat, j: nat)
    requires IsPage(page) && LayoutOf(headers, fileSize, page).Some?
    requires i < j < |headers| && headers[i].tag == PT_LOAD && headers[j].tag == PT_LOAD
    ensures headers[i].address + headers[i].memory <= headers[j].address
  {
    var before := headers[..|headers| - 1];
    if j < |before| {
      LoadsDisjoint(before, fileSize, page, i, j);
    } else {
      LoadsEnd(before, fileSize, page);
      assert before[i] in before && before[i] == headers[i];
    }
  }

  // ---------------------------------------------------------------- process maps

  datatype Place = Anonymous | Kernel(vdso: bool) | File(path: string)

  datatype MapRow = MapRow(begin: nat, end: nat, permissions: string, offset: nat, identity: (nat, nat, nat), place: Place)

  datatype Mapping = Mapping(path: string, start: nat, end: nat, permissions: string, offset: nat, identity: (nat, nat, nat))

  predicate Permissions(t: string) {
    && |t| == 4 && (t[0] == 'r' || t[0] == '-') && (t[1] == 'w' || t[1] == '-')
    && (t[2] == 'x' || t[2] == '-') && (t[3] == 'p' || t[3] == 's')
  }

  datatype Seen = Seen(files: seq<Mapping>, vdso: bool, vsyscall: bool, previousEnd: nat)

  predicate SpecialOk(r: MapRow, x86: bool, vdsoAddress: nat) {
    && r.place.Kernel? && r.offset == 0 && r.identity == (0, 0, 0)
    && (if r.place.vdso then r.begin == vdsoAddress && r.permissions == "r-xp" && r.end - r.begin <= 1048576
        else x86 && r.begin == 0xffffffffff600000 && r.end - r.begin == 4096 && r.permissions == "--xp")
  }

  /** One line of _proc_code_maps, already split into its fields. */
  function MapStep(so: Seen, r: MapRow, page: nat, x86: bool, vdsoAddress: nat): Option<Seen>
    requires IsPage(page)
  {
    if !Permissions(r.permissions) || !(so.previousEnd <= r.begin < r.end) then None
    else if r.begin % page != 0 || r.end % page != 0 || r.offset % page != 0 then None
    else if r.permissions[1] == 'w' && r.permissions[2] == 'x' then None
    else if r.permissions[2] != 'x' then Some(so.(previousEnd := r.end))
    else if |so.files| + (if so.vdso then 1 else 0) + (if so.vsyscall then 1 else 0) >= 256 then None
    else
      match r.place
      case Anonymous => None
      case Kernel(vdso) =>
        if (if vdso then so.vdso else so.vsyscall) || !SpecialOk(r, x86, vdsoAddress) then None
        else Some(so.(vdso := so.vdso || vdso, vsyscall := so.vsyscall || !vdso, previousEnd := r.end))
      case File(path) =>
        if r.identity.2 == 0 then None
        else Some(so.(files := so.files + [Mapping(path, r.begin, r.end, r.permissions, r.offset, r.identity)], previousEnd := r.end))
  }

  function MapsOf(rows: seq<MapRow>, page: nat, x86: bool, vdsoAddress: nat): Option<Seen>
    requires IsPage(page)
  {
    if rows == [] then Some(Seen([], false, false, 0))
    else
      match MapsOf(rows[..|rows| - 1], page, x86, vdsoAddress)
      case None => None
      case Some(so) => MapStep(so, rows[|rows| - 1], page, x86, vdsoAddress)
  }

  /** Mappings in address order, none overlapping another, all in whole pages. */
  predicate Ascending(maps: seq<Mapping>) {
    && (forall i :: 0 <= i < |maps| ==> maps[i].start < maps[i].end)
    && (forall i, j :: 0 <= i < j < |maps| ==> maps[i].end <= maps[j].start)
  }

  predicate Paged(m: Mapping, page: nat)
    requires IsPage(page)
  {
    m.start % page == 0 && m.end % page == 0 && m.offset % page == 0
  }

  predicate InOrder(so: Seen, page: nat)
    requires IsPage(page)
  {
    Ascending(so.files) && forall m :: m in so.files ==> m.end <= so.previousEnd && Paged(m, page)
  }

  function FileMapping(r: MapRow): Mapping
    requires r.place.File?
  {
    Mapping(r.place.path, r.begin, r.end, r.permissions, r.offset, r.identity)
  }

  predicate IsCode(r: MapRow) {
    Permissions(r.permissions) && r.permissions[2] == 'x'
  }

  /** A code line is a kernel page or a file mapping that was kept, and is never writable. */
  predicate Kept(r: MapRow, files: seq<Mapping>) {
    IsCode(r) ==> !r.place.Anonymous? && r.permissions[1] == '-' && (r.place.File? ==> FileMapping(r) in files)
  }

  lemma {:induction false} StepInOrder(so: Seen, r: MapRow, page: nat, x86: bool, vdsoAddress: nat)
    requires IsPage(page) && InOrder(so, page) && MapStep(so, r, page, x86, vdsoAddress).Some?
    ensures InOrder(MapStep(so, r, page, x86, vdsoAddress).value, page)
  {
    var next := MapStep(so, r, page, x86, vdsoAddress).value;
    if next.files != so.files {
      AppendInOrder(so.files, FileMapping(r), so.previousEnd);
      assert next.files == so.files + [FileMapping(r)] && Paged(FileMapping(r), page);
    }
  }

  lemma {:induction false} AppendInOrder(files: seq<Mapping>, m: Mapping, previousEnd: nat)
    requires Ascending(files) && (forall x :: x in files ==> x.end <= previousEnd) && previousEnd <= m.start < m.end
    ensures Ascending(files + [m])
  {
    assert forall i :: 0 <= i < |files| ==> files[i] in files;
  }

  lemma {:induction false} StepKeeps(so: Seen, r: MapRow, page: nat, x86: bool, vdsoAddress: nat)
    requires IsPage(page) && MapStep(so, r, page, x86, vdsoAddress).Some?
    ensures so.files <= MapStep(so, r, page, x86, vdsoAddress).value.files
    ensures Kept(r, MapStep(so, r, page, x86, vdsoAddress).value.files)
  {
  }

  /** The file mappings kept are in order and disjoint; every code line is kept, none is writable or anonymous. */
  lemma {:induction false} MapsAscend(rows: seq<MapRow>, page: nat, x86: bool, vdsoAddress: nat)
    requires IsPage(page) && MapsOf(rows, page, x86, vdsoAddress).Some?
    ensures InOrder(MapsOf(rows, page, x86, vdsoAddress).value, page)
    ensures forall i :: 0 <= i < |rows| ==> Kept(rows[i], MapsOf(rows, page, x86, vdsoAddress).value.files)
  {
    if rows != [] {
      var before, last := rows[..|rows| - 1], rows[|rows| - 1];
      MapsAscend(before, page, x86, vdsoAddress);
      var so, next := MapsOf(before, page, x86, vdsoAddress).value, MapsOf(rows, page, x86, vdsoAddress).value;
      StepInOrder(so, last, page, x86, vdsoAddress);
      StepKeeps(so, last, page, x86, vdsoAddress);
      forall i | 0 <= i < |rows|
        ensures Kept(rows[i], next.files)
      {
        if i < |rows| - 1 {
          assert rows[i] == before[i] && Kept(before[i], so.files);
        }
      }
    }
  }

  /** A code line of the kernel is the vdso at its announced address or the one vsyscall page. */
  lemma {:induction false} KernelLinesSpecial(rows: seq<MapRow>, page: nat, x86: bool, vdsoAddress: nat, i: nat)
    requires IsPage(page) && MapsOf(rows, page, x86, vdsoAddress).Some?
    requires i < |rows| && IsCode(rows[i]) && rows[i].place.Kernel?
    ensures SpecialOk(rows[i], x86, vdsoAddress)
  {
    var before := rows[..|rows| - 1];
    if i < |before| {
      KernelLinesSpecial(before, page, x86, vdsoAddress, i);
    }
  }

  lemma {:induction false} MapsPrefix(rows: seq<MapRow>, page: nat, x86: bool, vdsoAddress: nat, k: nat)
    requires IsPage(page) && k <= |rows| && MapsOf(rows[..k], page, x86, vdsoAddress).None?
    ensures MapsOf(rows, page, x86, vdsoAddress).None?
  {
    if k == |rows| {
      assert rows[..k] == rows;
    } else {
      var before := rows[..|rows| - 1];
      assert before[..k] == rows[..k];
      MapsPrefix(before, page, x86, vdsoAddress, k);
    }
  }

  /** `_proc_code_maps`: at least one file mapping and exactly one vdso. */
  function CodeMapsOf(rows: seq<MapRow>, page: nat, x86: bool, vdsoAddress: nat): Option<seq<Mapping>>
    requires IsPage(page)
  {
    match MapsOf(rows, page, x86, vdsoAddress)
    case None => None
    case Some(so) => if so.files == [] || !so.vdso then None else Some(so.files)
  }

  method ProcCodeMaps(rows: seq<MapRow>, page: nat, x86: bool, vdsoAddress: nat) returns (r: Option<seq<Mapping>>)
    requires IsPage(page)
    ensures r == CodeMapsOf(rows, page, x86, vdsoAddress)
  {
    var so := Seen([], false, false, 0);
    var i := 0;
    while i < |rows|
      invariant 0 <= i <= |rows| && MapsOf(rows[..i], page, x86, vdsoAddress) == Some(so)
    {
      assert rows[..i + 1][..i] == rows[..i];
      var next := MapStep(so, rows[i], page, x86, vdsoAddress);
      if next.None? {
        MapsPrefix(rows, page, x86, vdsoAddress, i + 1);
        return None;
      }
      so, i := next.value, i + 1;
    }
    assert rows[..i] == rows;
    if so.files == [] || !so.vdso {
      return None;
    }
    r := Some(so.files);
  }
}
