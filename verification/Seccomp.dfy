/** The seccomp filter generator (live_linux_boundary.py) and what its classic-BPF programs mean. */
module Seccomp {
  import opened Prelude

  // ---------------------------------------------------------------- classic BPF

  /** `struct sock_filter`. */
  datatype Insn = Insn(code: nat, jt: nat, jf: nat, k: bv32)

  const LOAD := 0x20
  const EQUAL := 0x15
  const BITS := 0x45
  const RET := 0x06

  /** `struct seccomp_data` as its 32-bit words by byte offset: 0 the number, 4 the architecture, 16 the low half of the first argument. */
  type Data = bv32 -> bv32

  /** Runs a filter from an instruction with an accumulator; None is a program fault. */
  function Run(code: seq<Insn>, data: Data, pc: nat, a: bv32): Option<bv32>
    decreases |code| - pc
  {
    if pc >= |code| then None
    else
      var i := code[pc];
      if i.code == LOAD then Run(code, data, pc + 1, data(i.k))
      else if i.code == EQUAL then Run(code, data, pc + 1 + (if a == i.k then i.jt else i.jf), a)
      else if i.code == BITS then Run(code, data, pc + 1 + (if a & i.k != 0 then i.jt else i.jf), a)
      else if i.code == RET then Some(i.k)
      else None
  }

  predicate Jumps(i: Insn) {
    i.code == EQUAL || i.code == BITS
  }

  /** What the kernel checks before it accepts a filter: known instructions, jumps inside the program, a return at its end. */
  predicate WellFormed(code: seq<Insn>) {
    && 0 < |code| <= 4096 && code[|code| - 1].code == RET
    && (forall pc :: 0 <= pc < |code| ==> code[pc].code in {LOAD, EQUAL, BITS, RET})
    && (forall pc :: 0 <= pc < |code| && Jumps(code[pc]) ==>
          pc + 1 + code[pc].jt < |code| && pc + 1 + code[pc].jf < |code| && code[pc].jt < 256 && code[pc].jf < 256)
  }

  // ---------------------------------------------------------------- constants

  const KILL: bv32 := 0x8000_0000
  const ALLOW: bv32 := 0x7FFF_0000
  const REFUSE: bv32 := 0x0005_0000 | 1      // errno EPERM
  const NO_SUCH_CALL: bv32 := 0x0005_0000 | 38 // errno ENOSYS
  const CLONE3: bv32 := 435
  const X32: bv32 := 0x4000_0000

  const CLONE_NEWUSER: bv32 := 0x1000_0000
  const CLONE_NEWNS: bv32 := 0x2_0000
  const CLONE_NEWPID: bv32 := 0x2000_0000
  const CLONE_NEWNET: bv32 := 0x4000_0000
  const CLONE_NEWUTS: bv32 := 0x0400_0000
  const CLONE_NEWIPC: bv32 := 0x0800_0000
  const CLONE_NEWCGROUP: bv32 := 0x0200_0000
  const NAMESPACE_MASK: bv32 :=
    CLONE_NEWUSER | CLONE_NEWNS | CLONE_NEWPID | CLONE_NEWNET | CLONE_NEWUTS | CLONE_NEWIPC | CLONE_NEWCGROUP

  /** One entry of ARCHES; `x32` marks the machine whose calls may carry the x32 bit. */
  datatype Arch = Arch(audit: bv32, clone: bv32, denied: seq<bv32>, x32: bool)

  const X86_64 := Arch(0xC000_003E, 56, [41, 42, 49, 50, 101, 165, 166, 272, 308, 321, 323, 425, 426, 427, 435, 438], true)
  const AARCH64 := Arch(0xC000_00B7, 220, [198, 203, 200, 201, 117, 40, 39, 97, 268, 280, 282, 425, 426, 427, 435, 438], false)

  function ArchOf(machine: string): Option<Arch> {
    if machine == "x86_64" then Some(X86_64) else if machine == "aarch64" then Some(AARCH64) else None
  }

  // ---------------------------------------------------------------- the generator

  function Head(m: Arch): seq<Insn> {
    [Insn(LOAD, 0, 0, 4), Insn(EQUAL, 1, 0, m.audit), Insn(RET, 0, 0, KILL), Insn(LOAD, 0, 0, 0)]
    + if m.x32 then [Insn(BITS, 0, 1, X32), Insn(RET, 0, 0, KILL)] else []
  }

  function Action(number: bv32): bv32 {
    if number == CLONE3 then NO_SUCH_CALL else REFUSE
  }

  function Denials(denied: seq<bv32>): seq<Insn> {
    if denied == [] then []
    else Denials(denied[..|denied| - 1]) + [Insn(EQUAL, 0, 1, denied[|denied| - 1]), Insn(RET, 0, 0, Action(denied[|denied| - 1]))]
  }

  function Tail(m: Arch): seq<Insn> {
    [Insn(EQUAL, 0, 3, m.clone), Insn(LOAD, 0, 0, 16), Insn(BITS, 0, 1, NAMESPACE_MASK), Insn(RET, 0, 0, REFUSE), Insn(RET, 0, 0, ALLOW)]
  }

  function Program(m: Arch): seq<Insn> {
    Head(m) + Denials(m.denied) + Tail(m)
  }

  lemma {:induction false} OneMoreDenial(head: seq<Insn>, denied: seq<bv32>, i: nat, pair: seq<Insn>)
    requires i < |denied| && pair == [Insn(EQUAL, 0, 1, denied[i]), Insn(RET, 0, 0, Action(denied[i]))]
    ensures (head + Denials(denied[..i])) + pair == head + Denials(denied[..i + 1])
  {
    assert denied[..i + 1][..i] == denied[..i];
  }

  /** The code list grows number by number. */
  method Generate(m: Arch) returns (code: seq<Insn>)
    ensures code == Program(m)
  {
    code := [Insn(LOAD, 0, 0, 4), Insn(EQUAL, 1, 0, m.audit), Insn(RET, 0, 0, KILL), Insn(LOAD, 0, 0, 0)];
    if m.x32 {
      code := code + [Insn(BITS, 0, 1, X32), Insn(RET, 0, 0, KILL)];
    }
    assert code == Head(m) + Denials(m.denied[..0]);
    var i := 0;
    while i < |m.denied|
      invariant 0 <= i <= |m.denied| && code == Head(m) + Denials(m.denied[..i])
    {
      var pair := [Insn(EQUAL, 0, 1, m.denied[i]), Insn(RET, 0, 0, Action(m.denied[i]))];
      OneMoreDenial(Head(m), m.denied, i, pair);
      code := code + pair;
      i := i + 1;
    }
    assert m.denied[..i] == m.denied;
    code := code + [Insn(EQUAL, 0, 3, m.clone), Insn(LOAD, 0, 0, 16), Insn(BITS, 0, 1, NAMESPACE_MASK),
                    Insn(RET, 0, 0, REFUSE), Insn(RET, 0, 0, ALLOW)];
  }

  /** `seccomp_program`. */
  method SeccompProgram(machine: string) returns (r: Option<seq<Insn>>)
    ensures r == match ArchOf(machine) case None => None case Some(m) => Some(Program(m))
  {
    var found := ArchOf(machine);
    if found.None? {
      return None;
    }
    var code := Generate(found.value);
    r := Some(code);
  }

  // ---------------------------------------------------------------- the intended policy

  function Policy(m: Arch, data: Data): bv32 {
    var number := data(0);
    if data(4) != m.audit then KILL
    else if m.x32 && number & X32 != 0 then KILL
    else if number in m.denied then (if number == CLONE3 then NO_SUCH_CALL else REFUSE)
    else if number == m.clone && data(16) & NAMESPACE_MASK != 0 then REFUSE
    else ALLOW
  }

  // ---------------------------------------------------------------- proof

  predicate Has(code: seq<Insn>, pc: nat, part: seq<Insn>) {
    pc + |part| <= |code| && code[pc..pc + |part|] == part
  }

  lemma {:induction false} HasAt(code: seq<Insn>, pc: nat, part: seq<Insn>, i: nat)
    requires Has(code, pc, part) && i < |part|
    ensures code[pc + i] == part[i]
  {
    assert code[pc..pc + |part|][i] == code[pc + i];
  }

  lemma {:induction false} DenialsLength(denied: seq<bv32>)
    ensures |Denials(denied)| == 2 * |denied|
  {
    if denied != [] {
      DenialsLength(denied[..|denied| - 1]);
    }
  }

  /** The denial block returns the action of the number if it is listed, and else falls through behind itself. */
  lemma {:induction false} RunDenials(code: seq<Insn>, data: Data, pc: nat, denied: seq<bv32>, number: bv32)
    requires Has(code, pc, Denials(denied))
    ensures Run(code, data, pc, number) ==
            if number in denied then Some(Action(number)) else Run(code, data, pc + 2 * |denied|, number)
  {
    if denied != [] {
      var before, last := denied[..|denied| - 1], denied[|denied| - 1];
      DenialsLength(before);
      DenialsLength(denied);
      HasPrefix(code, pc, Denials(before), Denials(denied));
      RunDenials(code, data, pc, before, number);
      HasAt(code, pc, Denials(denied), 2 * |before|);
      HasAt(code, pc, Denials(denied), 2 * |before| + 1);
      RunPair(code, data, pc + 2 * |before|, last, number);
      assert denied == before + [last];
    }
  }

  lemma {:induction false} HasPrefix(code: seq<Insn>, pc: nat, a: seq<Insn>, b: seq<Insn>)
    requires Has(code, pc, b) && a <= b
    ensures Has(code, pc, a)
  {
    assert code[pc..pc + |a|] == code[pc..pc + |b|][..|a|];
  }

  lemma {:induction false} RunPair(code: seq<Insn>, data: Data, pc: nat, listed: bv32, number: bv32)
    requires pc + 1 < |code| && code[pc] == Insn(EQUAL, 0, 1, listed) && code[pc + 1] == Insn(RET, 0, 0, Action(listed))
    ensures Run(code, data, pc, number) == if number == listed then Some(Action(number)) else Run(code, data, pc + 2, number)
  {
  }

  lemma {:induction false} RunTail(code: seq<Insn>, data: Data, pc: nat, m: Arch, number: bv32)
    requires Has(code, pc, Tail(m))
    ensures Run(code, data, pc, number) ==
            Some(if number == m.clone && data(16) & NAMESPACE_MASK != 0 then REFUSE else ALLOW)
  {
    HasAt(code, pc, Tail(m), 0);
    HasAt(code, pc, Tail(m), 1);
    HasAt(code, pc, Tail(m), 2);
    HasAt(code, pc, Tail(m), 3);
    HasAt(code, pc, Tail(m), 4);
    assert Run(code, data, pc + 4, number) == Some(ALLOW);
    assert Run(code, data, pc + 4, data(16)) == Some(ALLOW);
    assert Run(code, data, pc + 3, data(16)) == Some(REFUSE);
    assert Run(code, data, pc + 2, data(16)) == Some(if data(16) & NAMESPACE_MASK != 0 then REFUSE else ALLOW);
    assert Run(code, data, pc + 1, number) == Run(code, data, pc + 2, data(16));
  }

  lemma {:induction false} RunHead(code: seq<Insn>, data: Data, m: Arch)
    requires Has(code, 0, Head(m))
    ensures Run(code, data, 0, 0) ==
            if data(4) != m.audit || (m.x32 && data(0) & X32 != 0) then Some(KILL) else Run(code, data, |Head(m)|, data(0))
  {
    HasAt(code, 0, Head(m), 0);
    HasAt(code, 0, Head(m), 1);
    HasAt(code, 0, Head(m), 2);
    HasAt(code, 0, Head(m), 3);
    assert Run(code, data, 2, data(4)) == Some(KILL);
    assert Run(code, data, 3, data(4)) == Run(code, data, 4, data(0));
    assert Run(code, data, 1, data(4)) == if data(4) == m.audit then Run(code, data, 4, data(0)) else Some(KILL);
    assert Run(code, data, 0, 0) == Run(code, data, 1, data(4));
    if m.x32 {
      HasAt(code, 0, Head(m), 4);
      HasAt(code, 0, Head(m), 5);
      assert Run(code, data, 5, data(0)) == Some(KILL);
      assert Run(code, data, 4, data(0)) == if data(0) & X32 != 0 then Some(KILL) else Run(code, data, 6, data(0));
    }
  }

  lemma {:induction false} ProgramParts(m: Arch)
    ensures Has(Program(m), 0, Head(m))
    ensures Has(Program(m), |Head(m)|, Denials(m.denied))
    ensures Has(Program(m), |Head(m)| + 2 * |m.denied|, Tail(m))
  {
    DenialsLength(m.denied);
    PartsInPlace(Head(m), Denials(m.denied), Tail(m));
  }

  lemma {:induction false} PartsInPlace(a: seq<Insn>, b: seq<Insn>, c: seq<Insn>)
    ensures Has(a + b + c, 0, a) && Has(a + b + c, |a|, b) && Has(a + b + c, |a| + |b|, c)
  {
    var code := a + b + c;
    assert code[0..|a|] == a;
    assert code[|a|..|a| + |b|] == b;
    assert code[|a| + |b|..|a| + |b| + |c|] == c;
  }

  /** The compiled filter means the policy: for any list of denied numbers and any call it returns exactly the policy's verdict. */
  lemma {:induction false} ProgramMeansPolicy(m: Arch, data: Data)
    ensures Run(Program(m), data, 0, 0) == Some(Policy(m, data))
  {
    ProgramParts(m);
    RunParts(Program(m), m, data, |Head(m)|);
  }

  lemma {:induction false} RunParts(code: seq<Insn>, m: Arch, data: Data, head: nat)
    requires head == |Head(m)| && Has(code, 0, Head(m)) && Has(code, head, Denials(m.denied)) && Has(code, head + 2 * |m.denied|, Tail(m))
    ensures Run(code, data, 0, 0) == Some(Policy(m, data))
  {
    RunHead(code, data, m);
    RunDenials(code, data, head, m.denied, data(0));
    RunTail(code, data, head + 2 * |m.denied|, m, data(0));
    assert Run(code, data, head, data(0)) ==
           Some(if data(0) in m.denied then Action(data(0))
                else if data(0) == m.clone && data(16) & NAMESPACE_MASK != 0 then REFUSE else ALLOW);
  }

  lemma {:induction false} DenialsShape(denied: seq<bv32>, i: nat)
    requires i < |Denials(denied)|
    ensures |Denials(denied)| == 2 * |denied|
    ensures if i % 2 == 0 then Denials(denied)[i] == Insn(EQUAL, 0, 1, denied[i / 2]) else Denials(denied)[i].code == RET
  {
    DenialsLength(denied);
    var before := denied[..|denied| - 1];
    DenialsLength(before);
    if i < 2 * |before| {
      DenialsShape(before, i);
    }
  }

  /** The kernel's own checks pass for every list that fits: jumps go forward and stay inside. */
  lemma {:induction false} ProgramWellFormed(m: Arch)
    requires |m.denied| <= 2042
    ensures WellFormed(Program(m))
  {
    var code := Program(m);
    DenialsLength(m.denied);
    forall pc | 0 <= pc < |code|
      ensures code[pc].code in {LOAD, EQUAL, BITS, RET}
      ensures Jumps(code[pc]) ==> pc + 1 + code[pc].jt < |code| && pc + 1 + code[pc].jf < |code| && code[pc].jt < 256 && code[pc].jf < 256
    {
      if |Head(m)| <= pc < |Head(m)| + 2 * |m.denied| {
        DenialsShape(m.denied, pc - |Head(m)|);
        assert code[pc] == Denials(m.denied)[pc - |Head(m)|];
      }
    }
  }

  /** The mask catches exactly the seven namespace flags. */
  lemma {:induction false} MaskIsTheSevenFlags(flags: bv32)
    ensures flags & NAMESPACE_MASK != 0 <==>
            || flags & CLONE_NEWUSER != 0 || flags & CLONE_NEWNS != 0 || flags & CLONE_NEWPID != 0 || flags & CLONE_NEWNET != 0
            || flags & CLONE_NEWUTS != 0 || flags & CLONE_NEWIPC != 0 || flags & CLONE_NEWCGROUP != 0
  {
    assert flags & NAMESPACE_MASK == (flags & CLONE_NEWUSER) | (flags & CLONE_NEWNS) | (flags & CLONE_NEWPID) | (flags & CLONE_NEWNET)
                                     | (flags & CLONE_NEWUTS) | (flags & CLONE_NEWIPC) | (flags & CLONE_NEWCGROUP);
  }

  /**
    On both machines an allowed call has the right architecture, is not listed, and creates no namespace;
    clone3, whose flags a filter cannot see, is answered as missing so that a caller falls back to clone.
   */
  lemma {:induction false} AllowedCalls(machine: string, data: Data)
    requires ArchOf(machine).Some?
    ensures var m := ArchOf(machine).value;
            var verdict := Run(Program(m), data, 0, 0);
            && (verdict == Some(ALLOW) <==>
                  && data(4) == m.audit && !(machine == "x86_64" && data(0) & X32 != 0) && data(0) !in m.denied
                  && !(data(0) == m.clone && data(16) & NAMESPACE_MASK != 0))
            && (data(4) == m.audit && data(0) == CLONE3 ==> verdict == Some(NO_SUCH_CALL))
            && m.clone !in m.denied
  {
    var m := ArchOf(machine).value;
    ProgramMeansPolicy(m, data);
    assert m.denied[14] == CLONE3;
    assert CLONE3 & X32 == 0;
  }

  // ---------------------------------------------------------------- the calls by name

  /** Sockets, tracing, mounts, namespaces, programs loaded into the kernel, asynchronous rings and stolen descriptors. */
  datatype Syscall =
    | SOCKET | CONNECT | BIND | LISTEN
    | PTRACE | MOUNT | UMOUNT2 | UNSHARE | SETNS
    | BPF | USERFAULTFD | IO_URING_SETUP | IO_URING_ENTER | IO_URING_REGISTER
    | CLONE_3 | PIDFD_GETFD

  /** The numbers of the Linux ABI on the two machines. */
  function NumberOn(x86: bool, call: Syscall): bv32 {
    match call
    case SOCKET => if x86 then 41 else 198
    case CONNECT => if x86 then 42 else 203
    case BIND => if x86 then 49 else 200
    case LISTEN => if x86 then 50 else 201
    case PTRACE => if x86 then 101 else 117
    case MOUNT => if x86 then 165 else 40
    case UMOUNT2 => if x86 then 166 else 39
    case UNSHARE => if x86 then 272 else 97
    case SETNS => if x86 then 308 else 268
    case BPF => if x86 then 321 else 280
    case USERFAULTFD => if x86 then 323 else 282
    case IO_URING_SETUP => 425
    case IO_URING_ENTER => 426
    case IO_URING_REGISTER => 427
    case CLONE_3 => 435
    case PIDFD_GETFD => 438
  }

  predicate Is(machine: string, call: Syscall, number: bv32) {
    NumberOn(machine == "x86_64", call) == number
  }

  lemma {:induction false} OnX86(number: bv32)
    ensures number in X86_64.denied <==>
            || number == 41 || number == 42 || number == 49 || number == 50 || number == 101 || number == 165 || number == 166 || number == 272
            || number == 308 || number == 321 || number == 323 || number == 425 || number == 426 || number == 427 || number == 435 || number == 438
  {
  }

  lemma {:induction false} OnArm(number: bv32)
    ensures number in AARCH64.denied <==>
            || number == 198 || number == 203 || number == 200 || number == 201 || number == 117 || number == 40 || number == 39 || number == 97
            || number == 268 || number == 280 || number == 282 || number == 425 || number == 426 || number == 427 || number == 435 || number == 438
  {
  }

  /** The call a number names on a machine. */
  function CallOf(x86: bool, number: bv32): Syscall {
    if number == 425 then IO_URING_SETUP else if number == 426 then IO_URING_ENTER else if number == 427 then IO_URING_REGISTER
    else if number == 435 then CLONE_3 else if number == 438 then PIDFD_GETFD
    else if number == (if x86 then 41 else 198) then SOCKET else if number == (if x86 then 42 else 203) then CONNECT
    else if number == (if x86 then 49 else 200) then BIND else if number == (if x86 then 50 else 201) then LISTEN
    else if number == (if x86 then 101 else 117) then PTRACE else if number == (if x86 then 165 else 40) then MOUNT
    else if number == (if x86 then 166 else 39) then UMOUNT2 else if number == (if x86 then 272 else 97) then UNSHARE
    else if number == (if x86 then 308 else 268) then SETNS else if number == (if x86 then 321 else 280) then BPF
    else USERFAULTFD
  }

  /** On both machines the denied numbers are those of the sixteen calls, and the allowed clone and audit numbers are the machine's. */
  lemma {:induction false} DeniedByName(machine: string, number: bv32)
    requires ArchOf(machine).Some?
    ensures machine == "x86_64" || machine == "aarch64"
    ensures number in ArchOf(machine).value.denied <==> exists call: Syscall :: Is(machine, call, number)
    ensures ArchOf(machine).value.clone == if machine == "x86_64" then 56 else 220
    ensures ArchOf(machine).value.audit == if machine == "x86_64" then 0xC000_003E else 0xC000_00B7
  {
    OnX86(number);
    OnArm(number);
    if number in ArchOf(machine).value.denied {
      assert Is(machine, CallOf(machine == "x86_64", number), number);
    }
  }
}
