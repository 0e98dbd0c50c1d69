/** The way of a rewritten system call: sled, hook entry, C hook, raw system call, and back. */
module Hook {
  import opened Iteration
  import opened X86
  import opened Sled

  const NR_RT_SIGRETURN: int := 15
  const NR_CLONE: int := 56
  const NR_CLONE3: int := 435
  const CLONE_VM: int := 0x100
  const ENOSYS: int := 38

  /** Arguments of a call of hook_fn. */
  datatype Args = Args(a1: int, a2: int, a3: int, a4: int, a5: int, a6: int, a7: int)

  /**
   * Where things are, and what surrounds the hand-written code: `call` is how compiled C reaches hook_fn,
   * `leave` how it returns, `kernel` what a system call does.
   */
  datatype Host = Host(code: int -> int, n: nat, hook: int, enter: int, c: int, resume: int, rewritten: int -> bool,
                       call: (State, Args) -> State, leave: (Cpu, State) -> State, kernel: (State, int) -> State)

  /** `frames` holds the registers at the entry of each call of syscall_hook in progress. */
  datatype World = World(s: State, frames: seq<Cpu>, trapped: bool)

  const HOOK_SIZE: nat := 39
  const ENTER_SIZE: nat := 9
  const SYSCALL_AT: nat := 7

  /** asm_syscall_hook. */
  function HookInstr(h: Host, j: int): Instr {
    match j
    case 0 => Pop(RAX)
    case 1 => Push(RDI)
    case 2 => Push(RAX)
    case 3 => MovImm(RDI, 0xaaaa_aaaa_aaaa_aaab)
    case 4 => Imul(RAX, RDI)
    case 5 => Cmp(RAX, RDI)
    case 6 => Pop(RAX)
    case 7 => Pop(RDI)
    case 8 => Jb(10)
    case 9 => AddImm(RSP, 8)
    case 10 => CmpImm(RAX, NR_RT_SIGRETURN)
    case 11 => Je(37)
    case 12 => Push(RBP)
    case 13 => Mov(RBP, RSP)
    case 14 => And16(RSP)
    case 15 => Push(R11)
    case 16 => Push(R9)
    case 17 => Push(R8)
    case 18 => Push(RDI)
    case 19 => Push(RSI)
    case 20 => Push(RDX)
    case 21 => Push(RCX)
    case 22 => PushAt(8, RBP)
    case 23 => Push(RAX)
    case 24 => Push(R10)
    case 25 => Call(h.c)
    case 26 => Pop(R10)
    case 27 => AddImm(RSP, 16)
    case 28 => Pop(RCX)
    case 29 => Pop(RDX)
    case 30 => Pop(RSI)
    case 31 => Pop(RDI)
    case 32 => Pop(R8)
    case 33 => Pop(R9)
    case 34 => Pop(R11)
    case 35 => Leave
    case 36 => Ret
    case 37 => AddImm(RSP, 8)
    case _ => JmpFar(h.enter + SYSCALL_AT)
  }

  /** enter_syscall, but for the system call itself. */
  function EnterInstr(j: int): Instr {
    match j
    case 0 => Mov(RAX, RDI)
    case 1 => Mov(RDI, RSI)
    case 2 => Mov(RSI, RDX)
    case 3 => Mov(RDX, RCX)
    case 4 => Mov(R10, R8)
    case 5 => Mov(R8, R9)
    case 6 => Load(R9, 8, RSP)
    case _ => Ret
  }

  /** syscall_hook: the check of the caller's address, the special cases, and the call of hook_fn. */
  function HookC(h: Host, w: World): World {
    var c, m := w.s.c, w.s.mem;
    var r10, rax, retptr := m(c.rsp + 8), m(c.rsp + 16), m(c.rsp + 24);
    if !h.rewritten(retptr - 2) then w.(trapped := true)
    else if rax == NR_CLONE3 then w.(s := h.leave(c, w.s.(c := c.(rax := WORD - ENOSYS))))
    else
      var thread := rax == NR_CLONE && c.rdi / CLONE_VM % 2 == 1;
      var rsi := if thread then c.rsi - 8 else c.rsi;
      var s := if thread then w.s.(mem := Store(m, rsi, retptr)) else w.s;
      w.(s := h.call(s, Args(rax, c.rdi, rsi, c.rdx, r10, c.r8, c.r9)), frames := w.frames + [c])
  }

  function Step(h: Host, w: World): World {
    var ip := w.s.c.rip;
    if w.trapped then w
    else if 0 <= ip < h.n + JUMP_SIZE then w.(s := ExecBytes(h.code, w.s))
    else if h.hook <= ip < h.hook + HOOK_SIZE then w.(s := Exec(HookInstr(h, ip - h.hook), h.hook, w.s))
    else if ip == h.enter + SYSCALL_AT then
      w.(s := h.kernel(w.s, if w.frames == [] then w.s.c.rsp else w.frames[|w.frames| - 1].rbp + 8))
    else if h.enter <= ip < h.enter + ENTER_SIZE then w.(s := Exec(EnterInstr(ip - h.enter), h.enter, w.s))
    else if ip == h.c then HookC(h, w)
    else if ip == h.resume && w.frames != [] then
      World(h.leave(w.frames[|w.frames| - 1], w.s), w.frames[..|w.frames| - 1], false)
    else w
  }

  // ---- premises -------------------------------------------------------------------------

  predicate Apart(a: int, n: int, b: int, m: int) {
    a + n <= b || b + m <= a
  }

  /** The pieces of code stand in different places. */
  predicate Placed(h: Host) {
    && h.n + JUMP_SIZE <= h.hook < WORD && h.n + JUMP_SIZE <= h.enter && h.n + JUMP_SIZE <= h.c && h.n + JUMP_SIZE <= h.resume
    && Apart(h.hook, HOOK_SIZE, h.enter, ENTER_SIZE)
    && Apart(h.hook, HOOK_SIZE, h.c, 1) && Apart(h.hook, HOOK_SIZE, h.resume, 1)
    && Apart(h.enter, ENTER_SIZE, h.c, 1) && Apart(h.enter, ENTER_SIZE, h.resume, 1) && h.c != h.resume
  }

  /** Calling hook_fn: arguments in registers and one on the stack, all of it below the caller's frame. */
  predicate Called(h: Host, s: State, a: Args, t: State) {
    && t.c.rip == h.enter
    && t.c.rdi == a.a1 && t.c.rsi == a.a2 && t.c.rdx == a.a3 && t.c.rcx == a.a4 && t.c.r8 == a.a5 && t.c.r9 == a.a6
    && t.c.rsp + 16 <= s.c.rsp && t.mem(t.c.rsp) == h.resume && t.mem(t.c.rsp + 8) == a.a7
  }

  ghost predicate SameFrom(m: Mem, m': Mem, lo: int) {
    forall x {:trigger m'(x)} :: lo <= x ==> m'(x) == m(x)
  }

  ghost predicate SameWithin(m: Mem, m': Mem, lo: int, hi: int) {
    forall x {:trigger m'(x)} :: lo <= x <= hi ==> m'(x) == m(x)
  }

  /** Returning from C: the registers it must keep, and the stack of its caller, are as they were at entry. */
  predicate Left(f: Cpu, s: State, t: State) {
    && t.c.rip == s.mem(f.rsp) && t.c.rsp == f.rsp + 8 && t.c.rax == s.c.rax
    && t.c.rbx == f.rbx && t.c.rbp == f.rbp && t.c.r12 == f.r12 && t.c.r13 == f.r13 && t.c.r14 == f.r14 && t.c.r15 == f.r15
  }

  /** A system call changes rax, rcx and r11. */
  predicate Served(s: State, t: State) {
    t.c == s.c.(rip := s.c.rip + 1, rax := t.c.rax, rcx := t.c.rcx, r11 := t.c.r11)
  }

  /**
   * The C code keeps the ABI and leaves its stack arguments unmodified; the kernel does not write to the
   * stack between the raw call and the hook's frame.
   */
  ghost predicate Abi(h: Host) {
    && (forall s, a {:trigger h.call(s, a)} :: Called(h, s, a, h.call(s, a)) && SameFrom(s.mem, h.call(s, a).mem, s.c.rsp))
    && (forall f, s {:trigger h.leave(f, s)} :: Left(f, s, h.leave(f, s)) && SameWithin(s.mem, h.leave(f, s).mem, f.rsp, f.rbp + 8))
    && (forall s, top {:trigger h.kernel(s, top)} :: Served(s, h.kernel(s, top)) && SameWithin(s.mem, h.kernel(s, top).mem, s.c.rsp, top))
  }

  /** The compiled hook writes to nothing but its own frame on the way to hook_fn. */
  ghost predicate FrameOnly(h: Host) {
    forall s, a, x {:trigger h.call(s, a).mem(x)} :: x + 8 <= h.call(s, a).c.rsp || s.c.rsp <= x ==> h.call(s, a).mem(x) == s.mem(x)
  }

  /** A call that touches nothing else, as an example. */
  function PlainCall(h: Host, s: State, a: Args): State {
    State(s.c.(rip := h.enter, rdi := a.a1, rsi := a.a2, rdx := a.a3, rcx := a.a4, r8 := a.a5, r9 := a.a6, rsp := s.c.rsp - 16),
          Store(Store(s.mem, s.c.rsp - 8, a.a7), s.c.rsp - 16, h.resume))
  }

  function PlainLeave(f: Cpu, s: State): State {
    State(f.(rip := s.mem(f.rsp), rsp := f.rsp + 8, rax := s.c.rax), s.mem)
  }

  lemma PlainCalled(h: Host, s: State, a: Args)
    ensures Called(h, s, a, PlainCall(h, s, a)) && SameFrom(s.mem, PlainCall(h, s, a).mem, s.c.rsp)
    ensures forall x :: x + 8 <= PlainCall(h, s, a).c.rsp ==> PlainCall(h, s, a).mem(x) == s.mem(x)
  {
  }

  /** Such surroundings exist for any placement of the code. */
  lemma AbiPossible(h: Host) returns (g: Host)
    ensures Abi(g) && FrameOnly(g)
    ensures g == h.(call := g.call, leave := g.leave, kernel := g.kernel)
  {
    g := h.(call := (s, a) => PlainCall(h, s, a), leave := PlainLeave, kernel := (s, _) => Fall(s, 1));
    forall s, a ensures Called(g, s, a, g.call(s, a)) && SameFrom(s.mem, g.call(s, a).mem, s.c.rsp) {
      PlainCalled(h, s, a);
    }
  }

  // ---- reachability ---------------------------------------------------------------------

  function Stepper(h: Host): World -> World {
    w => Step(h, w)
  }

  ghost predicate Leads(h: Host, w: World, w': World) {
    Reaches(Stepper(h), w, w')
  }

  lemma LeadsSelf(h: Host, w: World)
    ensures Leads(h, w, w)
  {
    ReachesSelf(Stepper(h), w);
  }

  lemma LeadsStep(h: Host, w: World, u: World)
    requires Leads(h, w, u)
    ensures Leads(h, w, Step(h, u))
  {
    ReachesStep(Stepper(h), w, u);
  }

  /** Where an address of hand-written code stands, the raw system call excepted. */
  predicate InListing(h: Host, ip: int) {
    h.hook <= ip < h.hook + HOOK_SIZE || (h.enter <= ip < h.enter + ENTER_SIZE && ip != h.enter + SYSCALL_AT)
  }

  function ListingStep(h: Host, s: State): State {
    if h.hook <= s.c.rip < h.hook + HOOK_SIZE then Exec(HookInstr(h, s.c.rip - h.hook), h.hook, s)
    else Exec(EnterInstr(s.c.rip - h.enter), h.enter, s)
  }

  /** What every instruction of the hand-written code keeps true. */
  ghost predicate Closed(h: Host, p: State -> bool) {
    && Placed(h)
    && forall s {:trigger ListingStep(h, s)} :: p(s) && InListing(h, s.c.rip) ==> p(ListingStep(h, s))
  }

  /** Reachability is such a property. */
  lemma LeadsClosed(h: Host, w: World, fs: seq<Cpu>)
    requires Placed(h)
    ensures Closed(h, s => Leads(h, w, World(s, fs, false)))
  {
    forall s | Leads(h, w, World(s, fs, false)) && InListing(h, s.c.rip) ensures Leads(h, w, World(ListingStep(h, s), fs, false)) {
      LeadsStep(h, w, World(s, fs, false));
    }
  }

  /** Instruction j of asm_syscall_hook is carried out. */
  lemma Go(h: Host, p: State -> bool, s: State, j: int, i: Instr) returns (t: State)
    requires Closed(h, p) && p(s) && 0 <= j < HOOK_SIZE && s.c.rip == h.hook + j && i == HookInstr(h, j)
    ensures t == Exec(i, h.hook, s) && p(t)
  {
    t := ListingStep(h, s);
  }

  /** Instruction j of enter_syscall is carried out. */
  lemma GoEnter(h: Host, p: State -> bool, s: State, j: int, i: Instr) returns (t: State)
    requires Closed(h, p) && p(s) && 0 <= j < ENTER_SIZE && j != SYSCALL_AT && s.c.rip == h.enter + j && i == EnterInstr(j)
    ensures t == Exec(i, h.enter, s) && p(t)
  {
    t := ListingStep(h, s);
  }

  /** A push, seen from outside: the word is on top of the stack and nothing above it has changed. */
  lemma GoPush(h: Host, p: State -> bool, s: State, j: int, i: Instr, w: int) returns (t: State)
    requires Closed(h, p) && p(s) && 0 <= j < HOOK_SIZE && s.c.rip == h.hook + j && i == HookInstr(h, j)
    requires i.Push? || i.PushAt?
    requires w == if i.Push? then Val(s.c, i.r) else s.mem(Val(s.c, i.base) + i.disp)
    ensures p(t) && t.c == s.c.(rip := s.c.rip + 1, rsp := s.c.rsp - 8)
    ensures t.mem(s.c.rsp - 8) == w && SameFrom(s.mem, t.mem, s.c.rsp)
  {
    t := Go(h, p, s, j, i);
  }

  /** A pop of a known word into a register other than the stack pointer. */
  lemma GoPop(h: Host, p: State -> bool, s: State, j: int, r: Reg, w: int) returns (t: State)
    requires Closed(h, p) && p(s) && 0 <= j < HOOK_SIZE && s.c.rip == h.hook + j && Pop(r) == HookInstr(h, j)
    requires r != RSP && w == s.mem(s.c.rsp)
    ensures p(t) && t == State(Set(s.c.(rip := s.c.rip + 1, rsp := s.c.rsp + 8), r, w), s.mem)
  {
    t := Go(h, p, s, j, Pop(r));
  }

  /** The test: the flag says whether rax is not of the form 3m + 1; rax and rdi are on the stack. */
  lemma TestBlock(h: Host, p: State -> bool, s: State) returns (t: State)
    requires Closed(h, p) && p(s) && s.c.rip == h.hook && 0 <= s.mem(s.c.rsp) < WORD
    ensures p(t)
    ensures t.c == s.c.(rip := h.hook + 6, rax := t.c.rax, rdi := t.c.rdi, rsp := s.c.rsp - 8, cf := s.mem(s.c.rsp) % 3 != 1, zf := t.c.zf)
    ensures t.mem(s.c.rsp - 8) == s.mem(s.c.rsp) && t.mem(s.c.rsp) == s.c.rdi && SameFrom(s.mem, t.mem, s.c.rsp + 8)
  {
    t := Go(h, p, s, 0, Pop(RAX));
    t := GoPush(h, p, t, 1, Push(RDI), s.c.rdi);
    t := GoPush(h, p, t, 2, Push(RAX), s.mem(s.c.rsp));
    t := Go(h, p, t, 3, MovImm(RDI, MULTIPLIER));
    t := Go(h, p, t, 4, Imul(RAX, RDI));
    t := Go(h, p, t, 5, Cmp(RAX, RDI));
    PopTest(s.mem(s.c.rsp));
  }

  /** The hook's first lines: rax comes back from the stack, and the sled's word is dropped for 3m + 1. */
  lemma PopBlock(h: Host, p: State -> bool, s: State) returns (t: State)
    requires Closed(h, p) && p(s) && s.c.rip == h.hook && 0 <= s.mem(s.c.rsp) < WORD
    ensures p(t)
    ensures var x := s.mem(s.c.rsp);
            t.c == s.c.(rip := h.hook + 10, rax := x, rsp := s.c.rsp + (if x % 3 == 1 then 16 else 8), cf := t.c.cf, zf := t.c.zf)
    ensures SameFrom(s.mem, t.mem, s.c.rsp + 8)
  {
    t := TestBlock(h, p, s);
    t := Go(h, p, t, 6, Pop(RAX));
    t := Go(h, p, t, 7, Pop(RDI));
    t := Go(h, p, t, 8, Jb(10));
    if !t.c.cf {
      t := Go(h, p, t, 9, AddImm(RSP, 8));
    }
  }

  function Align(x: int): int {
    x - x % 16
  }

  /** A frame is set up and the stack aligned, unless this is rt_sigreturn. */
  lemma FrameBlock(h: Host, p: State -> bool, s: State) returns (t: State)
    requires Closed(h, p) && p(s) && s.c.rip == h.hook + 10 && s.c.rax != NR_RT_SIGRETURN
    ensures p(t)
    ensures t.c == s.c.(rip := h.hook + 15, rbp := s.c.rsp - 8, rsp := Align(s.c.rsp - 8), cf := t.c.cf, zf := t.c.zf)
    ensures t.mem(s.c.rsp - 8) == s.c.rbp && SameFrom(s.mem, t.mem, s.c.rsp)
  {
    t := Go(h, p, s, 10, CmpImm(RAX, NR_RT_SIGRETURN));
    t := Go(h, p, t, 11, Je(37));
    t := GoPush(h, p, t, 12, Push(RBP), s.c.rbp);
    t := Go(h, p, t, 13, Mov(RBP, RSP));
    t := Go(h, p, t, 14, And16(RSP));
  }

  /** The registers the hook saves, as they lie at `a` upwards. */
  predicate Saved(m: Mem, a: int, c: Cpu) {
    && m(a) == c.rcx && m(a + 8) == c.rdx && m(a + 16) == c.rsi && m(a + 24) == c.rdi
    && m(a + 32) == c.r8 && m(a + 40) == c.r9 && m(a + 48) == c.r11
  }

  lemma SaveBlock(h: Host, p: State -> bool, s: State) returns (t: State)
    requires Closed(h, p) && p(s) && s.c.rip == h.hook + 15
    ensures p(t)
    ensures t.c == s.c.(rip := h.hook + 22, rsp := s.c.rsp - 56)
    ensures Saved(t.mem, t.c.rsp, s.c) && SameFrom(s.mem, t.mem, s.c.rsp)
  {
    var a := SaveSome(h, p, s);
    t := GoPush(h, p, a, 19, Push(RSI), s.c.rsi);
    t := GoPush(h, p, t, 20, Push(RDX), s.c.rdx);
    t := GoPush(h, p, t, 21, Push(RCX), s.c.rcx);
    assert SameFrom(a.mem, t.mem, a.c.rsp);
  }

  lemma SaveSome(h: Host, p: State -> bool, s: State) returns (t: State)
    requires Closed(h, p) && p(s) && s.c.rip == h.hook + 15
    ensures p(t) && t.c == s.c.(rip := h.hook + 19, rsp := s.c.rsp - 32) && SameFrom(s.mem, t.mem, s.c.rsp)
    ensures t.mem(t.c.rsp) == s.c.rdi && t.mem(t.c.rsp + 8) == s.c.r8 && t.mem(t.c.rsp + 16) == s.c.r9 && t.mem(t.c.rsp + 24) == s.c.r11
  {
    t := GoPush(h, p, s, 15, Push(R11), s.c.r11);
    t := GoPush(h, p, t, 16, Push(R9), s.c.r9);
    t := GoPush(h, p, t, 17, Push(R8), s.c.r8);
    t := GoPush(h, p, t, 18, Push(RDI), s.c.rdi);
  }

  /** The stack arguments of syscall_hook, and the call. */
  lemma CallBlock(h: Host, p: State -> bool, s: State) returns (t: State)
    requires Closed(h, p) && p(s) && s.c.rip == h.hook + 22 && s.c.rsp <= s.c.rbp + 8
    ensures p(t)
    ensures t.c == s.c.(rip := h.c, rsp := s.c.rsp - 32)
    ensures t.mem(t.c.rsp) == h.hook + 26 && t.mem(t.c.rsp + 8) == s.c.r10 && t.mem(t.c.rsp + 16) == s.c.rax
    ensures t.mem(t.c.rsp + 24) == s.mem(s.c.rbp + 8) && SameFrom(s.mem, t.mem, s.c.rsp)
  {
    t := GoPush(h, p, s, 22, PushAt(8, RBP), s.mem(s.c.rbp + 8));
    t := GoPush(h, p, t, 23, Push(RAX), s.c.rax);
    t := GoPush(h, p, t, 24, Push(R10), s.c.r10);
    t := Go(h, p, t, 25, Call(h.c));
  }

  /** After C has returned every saved register comes back. */
  lemma RestoreBlock(h: Host, p: State -> bool, s: State, c: Cpu) returns (t: State)
    requires Closed(h, p) && p(s) && s.c.rip == h.hook + 26
    requires s.mem(s.c.rsp) == c.r10 && Saved(s.mem, s.c.rsp + 24, c)
    ensures p(t)
    ensures t.c == s.c.(rip := h.hook + 35, r10 := c.r10, rcx := c.rcx, rdx := c.rdx, rsi := c.rsi, rdi := c.rdi, r8 := c.r8, r9 := c.r9,
                        r11 := c.r11, rsp := s.c.rsp + 80)
    ensures t.mem == s.mem
  {
    hide Closed;
    t := RestoreSome(h, p, s, c);
    t := GoPop(h, p, t, 31, RDI, c.rdi);
    t := GoPop(h, p, t, 32, R8, c.r8);
    t := GoPop(h, p, t, 33, R9, c.r9);
    t := GoPop(h, p, t, 34, R11, c.r11);
  }

  lemma RestoreSome(h: Host, p: State -> bool, s: State, c: Cpu) returns (t: State)
    requires Closed(h, p) && p(s) && s.c.rip == h.hook + 26
    requires s.mem(s.c.rsp) == c.r10 && Saved(s.mem, s.c.rsp + 24, c)
    ensures p(t) && t.mem == s.mem
    ensures t.c == s.c.(rip := h.hook + 31, r10 := c.r10, rcx := c.rcx, rdx := c.rdx, rsi := c.rsi, rsp := s.c.rsp + 48)
  {
    hide Closed;
    t := GoPop(h, p, s, 26, R10, c.r10);
    t := Go(h, p, t, 27, AddImm(RSP, 16));
    t := GoPop(h, p, t, 28, RCX, c.rcx);
    t := GoPop(h, p, t, 29, RDX, c.rdx);
    t := GoPop(h, p, t, 30, RSI, c.rsi);
  }

  lemma LeaveBlock(h: Host, p: State -> bool, s: State) returns (t: State)
    requires Closed(h, p) && p(s) && s.c.rip == h.hook + 35
    ensures p(t)
    ensures t == s.(c := s.c.(rip := s.mem(s.c.rbp + 8), rbp := s.mem(s.c.rbp), rsp := s.c.rbp + 16))
  {
    t := Go(h, p, s, 35, Leave);
    t := Go(h, p, t, 36, Ret);
  }

  /** rt_sigreturn goes straight to the raw system call. */
  lemma SigreturnBlock(h: Host, p: State -> bool, s: State) returns (t: State)
    requires Closed(h, p) && p(s) && s.c.rip == h.hook + 10 && s.c.rax == NR_RT_SIGRETURN
    ensures p(t)
    ensures t.c == s.c.(rip := h.enter + SYSCALL_AT, rsp := s.c.rsp + 8, cf := t.c.cf, zf := t.c.zf) && t.mem == s.mem
  {
    t := Go(h, p, s, 10, CmpImm(RAX, NR_RT_SIGRETURN));
    t := Go(h, p, t, 11, Je(37));
    t := Go(h, p, t, 37, AddImm(RSP, 8));
    t := Go(h, p, t, 38, JmpFar(h.enter + SYSCALL_AT));
  }

  /** enter_syscall moves C's arguments to where the kernel expects them. */
  lemma EnterBlock(h: Host, p: State -> bool, s: State) returns (t: State)
    requires Closed(h, p) && p(s) && s.c.rip == h.enter
    ensures p(t) && t.mem == s.mem
    ensures t.c == s.c.(rip := h.enter + SYSCALL_AT, rax := s.c.rdi, rdi := s.c.rsi, rsi := s.c.rdx, rdx := s.c.rcx, r10 := s.c.r8, r8 := s.c.r9,
                        r9 := s.mem(s.c.rsp + 8))
  {
    t := EnterSome(h, p, s);
    t := GoEnter(h, p, t, 4, Mov(R10, R8));
    t := GoEnter(h, p, t, 5, Mov(R8, R9));
    t := GoEnter(h, p, t, 6, Load(R9, 8, RSP));
  }

  lemma EnterSome(h: Host, p: State -> bool, s: State) returns (t: State)
    requires Closed(h, p) && p(s) && s.c.rip == h.enter
    ensures p(t) && t.mem == s.mem
    ensures t.c == s.c.(rip := h.enter + 4, rax := s.c.rdi, rdi := s.c.rsi, rsi := s.c.rdx, rdx := s.c.rcx)
  {
    t := GoEnter(h, p, s, 0, Mov(RAX, RDI));
    t := GoEnter(h, p, t, 1, Mov(RDI, RSI));
    t := GoEnter(h, p, t, 2, Mov(RSI, RDX));
    t := GoEnter(h, p, t, 3, Mov(RDX, RCX));
  }

  lemma EnterReturn(h: Host, p: State -> bool, s: State) returns (t: State)
    requires Closed(h, p) && p(s) && s.c.rip == h.enter + SYSCALL_AT + 1
    ensures p(t) && t == s.(c := s.c.(rip := s.mem(s.c.rsp), rsp := s.c.rsp + 8))
  {
    t := GoEnter(h, p, s, 8, Ret);
  }
}
