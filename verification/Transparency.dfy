/** A rewritten system call behaves like the system call it replaces. */
module Transparency {
  import opened X86
  import opened Sled
  import opened Hook

  /** The state right after the rewritten call of number i at address `site`. */
  predicate Entered(h: Host, s: State, i: nat, site: int) {
    s.c.rip == i && s.c.rax == i && i < h.n < WORD && s.mem(s.c.rsp) == site + 2
  }

  /** The entries whose stack the hook leaves balanced. */
  predicate BalancedEntry(n: nat, i: nat) {
    i <= n - 108 || i % 3 != 1
  }

  lemma {:induction false} SledLeads(h: Host, w: World, s: State, fs: seq<Cpu>, k: nat)
    requires Leads(h, w, World(s, fs, false)) && Inside(h.code, h.n, s, k)
    ensures Leads(h, w, World(Sled.Run(h.code, s, k), fs, false))
    decreases k
  {
    if k > 0 {
      PageStep(h, w, s, fs);
      SledLeads(h, w, ExecBytes(h.code, s), fs, k - 1);
    }
  }

  lemma PushRuns(code: int -> int, n: nat, hook: int, s: State) returns (a: State)
    requires IsTrampoline(code, n, hook) && s.c.rip == n
    ensures a == ExecBytes(code, s) && a.c == s.c.(rip := n + 1, rsp := s.c.rsp - 8)
    ensures a.mem(a.c.rsp) == s.c.rax && SameFrom(s.mem, a.mem, s.c.rsp)
  {
    assert code(n) == JumpByte(hook, 0);
    a := ExecBytes(code, s);
  }

  lemma FarRuns(code: int -> int, n: nat, hook: int, a: State) returns (b: State, t: State)
    requires 0 <= hook < WORD && IsTrampoline(code, n, hook) && a.c.rip == n + 1
    ensures b == ExecBytes(code, a) && t == ExecBytes(code, b) && b.c.rip == n + 11
    ensures t == a.(c := a.c.(rip := hook, rax := hook))
  {
    HookImm(code, n, hook);
    assert code(n + 1) == JumpByte(hook, 1) && code(n + 2) == JumpByte(hook, 2);
    b := ExecBytes(code, a);
    assert code(n + 11) == JumpByte(hook, 11) && code(n + 12) == JumpByte(hook, 12);
    t := ExecBytes(code, b);
  }

  /** The jump behind the sled: rax is saved on the stack and control is at the hook's entry. */
  lemma JumpLeads(h: Host, w: World, s: State, fs: seq<Cpu>) returns (t: State)
    requires Placed(h) && 0 <= h.hook && IsTrampoline(h.code, h.n, h.hook)
    requires Leads(h, w, World(s, fs, false)) && s.c.rip == h.n
    ensures Leads(h, w, World(t, fs, false))
    ensures t.c == s.c.(rip := h.hook, rax := h.hook, rsp := s.c.rsp - 8)
    ensures t.mem(t.c.rsp) == s.c.rax && SameFrom(s.mem, t.mem, s.c.rsp)
  {
    var a := PushRuns(h.code, h.n, h.hook, s);
    var b;
    b, t := FarRuns(h.code, h.n, h.hook, a);
    PageStep(h, w, s, fs);
    PageStep(h, w, a, fs);
    PageStep(h, w, b, fs);
  }

  /** A step at an address of the page. */
  lemma PageStep(h: Host, w: World, s: State, fs: seq<Cpu>)
    requires Leads(h, w, World(s, fs, false)) && 0 <= s.c.rip < h.n + JUMP_SIZE
    ensures Leads(h, w, World(ExecBytes(h.code, s), fs, false))
  {
    LeadsStep(h, w, World(s, fs, false));
  }

  lemma HookImm(code: int -> int, n: nat, hook: int)
    requires 0 <= hook < WORD && IsTrampoline(code, n, hook)
    ensures Imm(code, n + 3, 8) == hook
  {
    forall x | n + 3 <= x < n + 11 ensures code(x) == ByteOf(hook, x - (n + 3)) {
      assert code(x) == JumpByte(hook, x - n);
    }
    WordBytes();
    ImmReads(code, n + 3, 8, hook);
  }

  lemma WordBytes()
    ensures Pow256(8) == WORD
  {
    assert Pow256(2) == 256 * Pow256(1) == 256 * 256;
    assert Pow256(4) == 256 * Pow256(3) == 256 * 256 * Pow256(2);
    assert Pow256(6) == 256 * Pow256(5) == 256 * 256 * Pow256(4);
    assert Pow256(8) == 256 * Pow256(7) == 256 * 256 * Pow256(6);
  }

  /** The page, and the premises about what surrounds the code. */
  ghost predicate Ready(h: Host) {
    Placed(h) && 0 <= h.hook && h.n % 3 != 0 && IsTrampoline(h.code, h.n, h.hook) && Abi(h)
  }

  /** Down the sled and through the test: all registers are as at the call, and so is the stack, if the entry is balanced. */
  lemma EntryPhase(h: Host, s: State, fs: seq<Cpu>, i: nat, site: int) returns (t: State)
    requires Ready(h) && Entered(h, s, i, site)
    ensures Leads(h, World(s, fs, false), World(t, fs, false))
    ensures t.c == s.c.(rip := h.hook + 10, rsp := t.c.rsp, cf := t.c.cf, zf := t.c.zf) && SameFrom(s.mem, t.mem, s.c.rsp)
    ensures t.c.rsp == if BalancedEntry(h.n, i) then s.c.rsp else s.c.rsp + 8
  {
    var w := World(s, fs, false);
    LeadsSelf(h, w);
    var k := SledRuns(h.code, h.n, s);
    SledLeads(h, w, s, fs, k);
    var a := Sled.Run(h.code, s, k);
    var b := JumpLeads(h, w, a, fs);
    LeadsClosed(h, w, fs);
    t := PopBlock(h, s => Leads(h, w, World(s, fs, false)), b);
  }

  /**
   * At the call of syscall_hook the stack is aligned to 16 bytes; the arguments are the registers of the
   * rewritten call, its number, and the address after it; everything to be restored is on the stack.
   */
  predicate AtHook(h: Host, s: State, t: State) {
    && t.c.rip == h.c && (t.c.rsp + 8) % 16 == 0 && t.mem(t.c.rsp) == h.hook + 26
    && t.mem(t.c.rsp + 8) == s.c.r10 && t.mem(t.c.rsp + 16) == s.c.rax && t.mem(t.c.rsp + 24) == s.mem(s.c.rsp)
    && Saved(t.mem, t.c.rsp + 32, s.c)
    && t.c.rsp + 88 <= t.c.rbp == s.c.rsp - 8 && t.mem(t.c.rbp) == s.c.rbp && t.mem(t.c.rbp + 8) == s.mem(s.c.rsp)
    && t.c == s.c.(rip := h.c, rbp := t.c.rbp, rsp := t.c.rsp, cf := t.c.cf, zf := t.c.zf)
  }

  lemma HookPhase(h: Host, p: State -> bool, s: State) returns (t: State)
    requires Closed(h, p) && p(s) && s.c.rip == h.hook + 10 && s.c.rax != NR_RT_SIGRETURN
    ensures p(t) && AtHook(h, s, t) && SameFrom(s.mem, t.mem, s.c.rsp)
  {
    var a := FrameBlock(h, p, s);
    var b := SaveBlock(h, p, a);
    t := CallBlock(h, p, b);
  }

  /** clone with a shared address space, where the C hook changes the child's stack. */
  predicate NewThread(s: State) {
    s.c.rax == 56 && s.c.rdi / 0x100 % 2 == 1
  }

  /** C passes the number and the six arguments on; what lies on the stack above its frame stays. */
  lemma CallPhase(h: Host, w: World, s: State, t: State, fs: seq<Cpu>, site: int) returns (u: State)
    requires Ready(h) && AtHook(h, s, t) && Leads(h, w, World(t, fs, false))
    requires h.rewritten(site) && s.mem(s.c.rsp) == site + 2 && s.c.rax != NR_CLONE3 && !NewThread(s)
    ensures Leads(h, w, World(u, fs + [t.c], false))
    ensures Called(h, t, Args(s.c.rax, s.c.rdi, s.c.rsi, s.c.rdx, s.c.r10, s.c.r8, s.c.r9), u) && SameFrom(t.mem, u.mem, t.c.rsp)
  {
    hide HookC, Leads, IsTrampoline, Saved;
    var a := Args(s.c.rax, s.c.rdi, s.c.rsi, s.c.rdx, s.c.r10, s.c.r8, s.c.r9);
    u := h.call(t, a);
    LeadsStep(h, w, World(t, fs, false));
    HookCalls(h, s, t, fs, site);
    assert Step(h, World(t, fs, false)) == HookC(h, World(t, fs, false));
  }

  lemma HookCalls(h: Host, s: State, t: State, fs: seq<Cpu>, site: int)
    requires AtHook(h, s, t) && h.rewritten(site) && s.mem(s.c.rsp) == site + 2 && s.c.rax != NR_CLONE3 && !NewThread(s)
    ensures HookC(h, World(t, fs, false))
            == World(h.call(t, Args(s.c.rax, s.c.rdi, s.c.rsi, s.c.rdx, s.c.r10, s.c.r8, s.c.r9)), fs + [t.c], false)
  {
  }

  /** The raw system call sees the registers of the rewritten one. */
  predicate AtRaw(h: Host, s: State, t: State) {
    && t.c.rip == h.enter + SYSCALL_AT
    && t.c.rax == s.c.rax && t.c.rdi == s.c.rdi && t.c.rsi == s.c.rsi && t.c.rdx == s.c.rdx
    && t.c.r10 == s.c.r10 && t.c.r8 == s.c.r8 && t.c.r9 == s.c.r9
  }

  lemma RawPhase(h: Host, w: World, s: State, t: State, u: State, fs: seq<Cpu>) returns (v: State)
    requires Ready(h) && Leads(h, w, World(u, fs, false))
    requires Called(h, t, Args(s.c.rax, s.c.rdi, s.c.rsi, s.c.rdx, s.c.r10, s.c.r8, s.c.r9), u)
    ensures Leads(h, w, World(v, fs, false)) && AtRaw(h, s, v)
    ensures v.mem == u.mem && v.c.rsp == u.c.rsp
  {
    LeadsClosed(h, w, fs);
    v := EnterBlock(h, s => Leads(h, w, World(s, fs, false)), u);
  }

  /** The kernel serves the call, and enter_syscall returns to C. */
  lemma KernelPhase(h: Host, w: World, s: State, f: Cpu, fs: seq<Cpu>) returns (t: State)
    requires Ready(h) && Leads(h, w, World(s, fs + [f], false)) && s.c.rip == h.enter + SYSCALL_AT
    requires s.c.rsp + 16 <= f.rsp <= f.rbp && s.mem(s.c.rsp) == h.resume
    ensures Leads(h, w, World(t, fs + [f], false)) && t.c.rip == h.resume
    ensures t.c.rax == h.kernel(s, f.rbp + 8).c.rax && SameWithin(s.mem, t.mem, f.rsp, f.rbp + 8)
  {
    var k := h.kernel(s, f.rbp + 8);
    assert Served(s, k) && SameWithin(s.mem, k.mem, s.c.rsp, f.rbp + 8);
    LeadsStep(h, w, World(s, fs + [f], false));
    assert Step(h, World(s, fs + [f], false)) == World(k, fs + [f], false);
    LeadsClosed(h, w, fs + [f]);
    t := EnterReturn(h, s => Leads(h, w, World(s, fs + [f], false)), k);
  }

  /** C returns into the hook, which restores what it saved and returns behind the rewritten call. */
  lemma ReturnPhase(h: Host, w: World, s0: State, t: State, s: State, fs: seq<Cpu>) returns (v: State)
    requires Ready(h) && AtHook(h, s0, t) && SameWithin(t.mem, s.mem, t.c.rsp, t.c.rbp + 8)
    requires Leads(h, w, World(s, fs + [t.c], false)) && s.c.rip == h.resume
    ensures Leads(h, w, World(v, fs, false))
    ensures v.c == s0.c.(rip := s0.mem(s0.c.rsp), rsp := s0.c.rsp + 8, rax := s.c.rax, cf := v.c.cf, zf := v.c.zf)
  {
    var u := h.leave(t.c, s);
    LeadsStep(h, w, World(s, fs + [t.c], false));
    assert Step(h, World(s, fs + [t.c], false)) == World(u, fs, false);
    assert Left(t.c, s, u) && SameWithin(s.mem, u.mem, t.c.rsp, t.c.rbp + 8);
    v := HookExit(h, w, s0, t, u, fs);
  }

  lemma HookExit(h: Host, w: World, s0: State, t: State, u: State, fs: seq<Cpu>) returns (v: State)
    requires Placed(h) && AtHook(h, s0, t) && SameWithin(t.mem, u.mem, t.c.rsp, t.c.rbp + 8) && Leads(h, w, World(u, fs, false))
    requires u.c.rip == h.hook + 26 && u.c.rsp == t.c.rsp + 8
    requires u.c.rbx == t.c.rbx && u.c.rbp == t.c.rbp && u.c.r12 == t.c.r12 && u.c.r13 == t.c.r13 && u.c.r14 == t.c.r14 && u.c.r15 == t.c.r15
    ensures Leads(h, w, World(v, fs, false))
    ensures v.c == s0.c.(rip := s0.mem(s0.c.rsp), rsp := s0.c.rsp + 8, rax := u.c.rax, cf := v.c.cf, zf := v.c.zf)
  {
    LeadsClosed(h, w, fs);
    var p := s => Leads(h, w, World(s, fs, false));
    var b := RestoreBlock(h, p, u, s0.c);
    v := LeaveBlock(h, p, b);
  }

  /** From the rewritten call to the call of syscall_hook. */
  lemma ToHook(h: Host, s: State, fs: seq<Cpu>, i: nat, site: int) returns (t: State)
    requires Ready(h) && Entered(h, s, i, site) && BalancedEntry(h.n, i) && i != NR_RT_SIGRETURN
    ensures Leads(h, World(s, fs, false), World(t, fs, false)) && AtHook(h, s, t) && SameFrom(s.mem, t.mem, s.c.rsp)
  {
    var w := World(s, fs, false);
    var a := EntryPhase(h, s, fs, i, site);
    LeadsClosed(h, w, fs);
    t := HookPhase(h, s => Leads(h, w, World(s, fs, false)), a);
  }

  /**
   * Transparency. For every state at a rewritten call whose entry is balanced, other than rt_sigreturn, clone3
   * and the creation of a thread: syscall_hook is called with an aligned stack, the raw system call is reached
   * with the number and the six arguments of the call that was rewritten and with the caller's stack as it
   * was, and control returns behind it with every register as it was, except that rax is the kernel's result.
   */
  lemma Transparent(h: Host, s: State, fs: seq<Cpu>, i: nat, site: int) returns (t: State, r: State, v: State)
    requires Ready(h) && Entered(h, s, i, site) && h.rewritten(site) && BalancedEntry(h.n, i)
    requires i != 15 && i != 435 && !NewThread(s)
    ensures Leads(h, World(s, fs, false), World(t, fs, false)) && t.c.rip == h.c && (t.c.rsp + 8) % 16 == 0
    ensures Leads(h, World(t, fs, false), World(r, fs + [t.c], false)) && AtRaw(h, s, r)
    ensures SameFrom(s.mem, r.mem, s.c.rsp)
    ensures Leads(h, World(r, fs + [t.c], false), World(v, fs, false))
    ensures v.c == s.c.(rip := site + 2, rsp := s.c.rsp + 8, rax := h.kernel(r, t.c.rbp + 8).c.rax, cf := v.c.cf, zf := v.c.zf)
  {
    t := ToHook(h, s, fs, i, site);
    LeadsSelf(h, World(t, fs, false));
    var u := CallPhase(h, World(t, fs, false), s, t, fs, site);
    r := RawPhase(h, World(t, fs, false), s, t, u, fs + [t.c]);
    v := BackPhase(h, s, t, r, fs);
  }

  lemma BackPhase(h: Host, s: State, t: State, r: State, fs: seq<Cpu>) returns (v: State)
    requires Ready(h) && AtHook(h, s, t) && r.c.rip == h.enter + SYSCALL_AT
    requires r.c.rsp + 16 <= t.c.rsp && r.mem(r.c.rsp) == h.resume && SameWithin(t.mem, r.mem, t.c.rsp, t.c.rbp + 8)
    ensures Leads(h, World(r, fs + [t.c], false), World(v, fs, false))
    ensures v.c == s.c.(rip := s.mem(s.c.rsp), rsp := s.c.rsp + 8, rax := h.kernel(r, t.c.rbp + 8).c.rax, cf := v.c.cf, zf := v.c.zf)
  {
    var w := World(r, fs + [t.c], false);
    LeadsSelf(h, w);
    var k := KernelPhase(h, w, r, t.c, fs);
    v := ReturnPhase(h, w, s, t, k, fs);
  }

  // ---- the creation of a thread ---------------------------------------------------------

  /** The word below the new thread's stack lies apart from everything the hook has on the caller's stack. */
  predicate ChildApart(s: State, r: State) {
    s.c.rsi <= r.c.rsp || s.c.rsp + 8 <= s.c.rsi - 8
  }

  /** The state at a rewritten call with the stack pointer that the kernel gives the new thread. */
  function Lowered(s: State): State {
    s.(c := s.c.(rsi := s.c.rsi - 8))
  }

  lemma ThreadCalls(h: Host, s: State, t: State, fs: seq<Cpu>, site: int)
    requires AtHook(h, s, t) && h.rewritten(site) && s.mem(s.c.rsp) == site + 2 && NewThread(s)
    ensures HookC(h, World(t, fs, false))
            == World(h.call(t.(mem := Store(t.mem, s.c.rsi - 8, site + 2)),
                            Args(NR_CLONE, s.c.rdi, s.c.rsi - 8, s.c.rdx, s.c.r10, s.c.r8, s.c.r9)), fs + [t.c], false)
  {
    hide Saved;
  }

  /** What the raw system call finds in memory. */
  lemma ThreadMemory(h: Host, s: State, t: State, u: State, site: int)
    requires AtHook(h, s, t) && SameFrom(s.mem, t.mem, s.c.rsp)
    requires SameFrom(Store(t.mem, s.c.rsi - 8, site + 2), u.mem, t.c.rsp)
    requires FrameOnly(h) ==> forall x {:trigger u.mem(x)} :: x + 8 <= u.c.rsp ==> u.mem(x) == Store(t.mem, s.c.rsi - 8, site + 2)(x)
    requires u.c.rsp <= t.c.rsp
    ensures forall x {:trigger u.mem(x)} :: s.c.rsp <= x && (x + 8 <= s.c.rsi - 8 || s.c.rsi <= x) ==> u.mem(x) == s.mem(x)
    ensures FrameOnly(h) && ChildApart(s, u) ==> u.mem(s.c.rsi - 8) == site + 2
    ensures ChildApart(s, u) ==> SameWithin(t.mem, u.mem, t.c.rsp, t.c.rbp + 8)
  {
  }

  /**
   * A rewritten clone that creates a thread: the raw system call is reached with the original number and
   * arguments, except that the new thread's stack pointer is one word lower, and in that word is the address
   * behind the rewritten call. Nothing else of what the caller had on its stack has changed.
   */
  lemma NewThreadPhase(h: Host, s: State, fs: seq<Cpu>, i: nat, site: int) returns (t: State, r: State)
    requires Ready(h) && Entered(h, s, i, site) && h.rewritten(site) && BalancedEntry(h.n, i) && NewThread(s)
    ensures Leads(h, World(s, fs, false), World(t, fs, false)) && AtHook(h, s, t)
    ensures Leads(h, World(t, fs, false), World(r, fs + [t.c], false)) && r.c.rip == h.enter + SYSCALL_AT
    ensures r.c.rax == 56 == s.c.rax && r.c.rdi == s.c.rdi && r.c.rsi == s.c.rsi - 8 && r.c.rdx == s.c.rdx
    ensures r.c.r10 == s.c.r10 && r.c.r8 == s.c.r8 && r.c.r9 == s.c.r9
    ensures FrameOnly(h) && ChildApart(s, r) ==> r.mem(s.c.rsi - 8) == site + 2
    ensures forall x {:trigger r.mem(x)} :: s.c.rsp <= x && (x + 8 <= s.c.rsi - 8 || s.c.rsi <= x) ==> r.mem(x) == s.mem(x)
    ensures r.c.rsp + 16 <= t.c.rsp && r.mem(r.c.rsp) == h.resume
    ensures ChildApart(s, r) ==> SameWithin(t.mem, r.mem, t.c.rsp, t.c.rbp + 8)
  {
    hide HookC, Leads, IsTrampoline, Saved;
    t := ToHook(h, s, fs, i, site);
    var w := World(t, fs, false);
    LeadsSelf(h, w);
    ThreadCalls(h, s, t, fs, site);
    var t1 := t.(mem := Store(t.mem, s.c.rsi - 8, site + 2));
    var a := Args(NR_CLONE, s.c.rdi, s.c.rsi - 8, s.c.rdx, s.c.r10, s.c.r8, s.c.r9);
    var u := h.call(t1, a);
    assert Called(h, t1, a, u) && SameFrom(t1.mem, u.mem, t1.c.rsp);
    LeadsStep(h, w, w);
    assert Step(h, w) == HookC(h, w);
    r := RawPhase(h, w, Lowered(s), t1, u, fs + [t.c]);
    ThreadMemory(h, s, t, u, site);
  }

  /** The thread that made the call goes on behind it with every register as it was. */
  lemma NewThreadReturns(h: Host, s: State, fs: seq<Cpu>, i: nat, site: int, t: State, r: State) returns (v: State)
    requires Ready(h) && Entered(h, s, i, site) && AtHook(h, s, t) && r.c.rip == h.enter + SYSCALL_AT
    requires r.c.rsp + 16 <= t.c.rsp && r.mem(r.c.rsp) == h.resume && SameWithin(t.mem, r.mem, t.c.rsp, t.c.rbp + 8)
    ensures Leads(h, World(r, fs + [t.c], false), World(v, fs, false))
    ensures v.c == s.c.(rip := site + 2, rsp := s.c.rsp + 8, rax := h.kernel(r, t.c.rbp + 8).c.rax, cf := v.c.cf, zf := v.c.zf)
  {
    v := BackPhase(h, s, t, r, fs);
  }

  /**
   * The new thread starts behind the raw system call, on its own stack, and goes on behind the rewritten call
   * with exactly the stack pointer that the program meant it to have.
   */
  lemma ChildGoesOn(h: Host, s: State, fs: seq<Cpu>, r: State, site: int, k: State) returns (v: State)
    requires Ready(h) && r.c.rsi == s.c.rsi - 8 && r.mem(s.c.rsi - 8) == site + 2
    requires k.c.rip == h.enter + SYSCALL_AT + 1 && k.c.rsp == r.c.rsi && k.mem(r.c.rsi) == r.mem(r.c.rsi)
    ensures Leads(h, World(k, fs, false), World(v, fs, false))
    ensures v == k.(c := k.c.(rip := site + 2, rsp := s.c.rsi))
  {
    var w := World(k, fs, false);
    LeadsSelf(h, w);
    LeadsClosed(h, w, fs);
    v := EnterReturn(h, s => Leads(h, w, World(s, fs, false)), k);
  }

  /** rt_sigreturn reaches the raw system call with the registers and the stack pointer from before the rewritten call. */
  lemma SigreturnTransparent(h: Host, s: State, fs: seq<Cpu>, site: int) returns (t: State)
    requires Ready(h) && Entered(h, s, 15, site)
    ensures Leads(h, World(s, fs, false), World(t, fs, false))
    ensures t.c == s.c.(rip := h.enter + SYSCALL_AT, rsp := s.c.rsp + 8, cf := t.c.cf, zf := t.c.zf)
    ensures SameFrom(s.mem, t.mem, s.c.rsp)
  {
    var w := World(s, fs, false);
    var a := EntryPhase(h, s, fs, NR_RT_SIGRETURN, site);
    LeadsClosed(h, w, fs);
    t := SigreturnBlock(h, s => Leads(h, w, World(s, fs, false)), a);
  }

  /** clone3 comes back with -ENOSYS, so that its callers fall back to clone. */
  lemma Clone3Refused(h: Host, s: State, fs: seq<Cpu>, site: int) returns (v: State)
    requires Ready(h) && Entered(h, s, 435, site) && h.rewritten(site)
    ensures Leads(h, World(s, fs, false), World(v, fs, false))
    ensures v.c == s.c.(rip := site + 2, rsp := s.c.rsp + 8, rax := WORD - 38, cf := v.c.cf, zf := v.c.zf)
  {
    var w := World(s, fs, false);
    var t := ToHook(h, s, fs, NR_CLONE3, site);
    var x := t.(c := t.c.(rax := WORD - ENOSYS));
    var u := h.leave(t.c, x);
    LeadsStep(h, w, World(t, fs, false));
    assert Step(h, World(t, fs, false)) == HookC(h, World(t, fs, false)) == World(u, fs, false);
    assert Left(t.c, x, u) && SameWithin(t.mem, u.mem, t.c.rsp, t.c.rbp + 8);
    v := HookExit(h, w, s, t, u, fs);
  }

  /** A call of the hook from an address that was never rewritten is trapped. */
  lemma ForeignTrapped(h: Host, s: State, fs: seq<Cpu>, i: nat, site: int) returns (t: State)
    requires Ready(h) && Entered(h, s, i, site) && BalancedEntry(h.n, i) && i != 15 && !h.rewritten(site)
    ensures Leads(h, World(s, fs, false), World(t, fs, true)) && t.c.rip == h.c
  {
    t := ToHook(h, s, fs, i, site);
    LeadsStep(h, World(s, fs, false), World(t, fs, false));
  }
}
