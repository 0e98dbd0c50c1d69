/** The part of a 64-bit x86 processor that the system call hook runs on. */
module X86 {
  const WORD: int := 0x1_0000_0000_0000_0000

  /** Memory as the 64-bit little-endian word that a load at each byte address returns. */
  type Mem = int -> int

  function Pow256(k: nat): (p: int)
    ensures p > 0
  {
    if k == 0 then 1 else 256 * Pow256(k - 1)
  }

  /** Storing a word changes the eight bytes at `a`, and so every word that overlaps them. */
  function Store(m: Mem, a: int, w: int): (m': Mem)
    ensures m'(a) == w
    ensures forall x {:trigger m'(x)} :: x <= a - 8 || a + 8 <= x ==> m'(x) == m(x)
  {
    x =>
      if x == a then w
      else if a - 8 < x < a then m(x) % Pow256(a - x) + w % Pow256(8 - (a - x)) * Pow256(a - x)
      else if a < x < a + 8 then w / Pow256(x - a) + m(x) / Pow256(8 - (x - a)) * Pow256(8 - (x - a))
      else m(x)
  }

  datatype Reg = RAX | RCX | RDX | RSI | RDI | RBP | RSP | R8 | R9 | R10 | R11

  /** Registers, flags and the instruction pointer. The hook touches neither rbx nor r12 to r15. */
  datatype Cpu = Cpu(rip: int, rax: int, rbx: int, rcx: int, rdx: int, rsi: int, rdi: int, rbp: int, rsp: int,
                     r8: int, r9: int, r10: int, r11: int, r12: int, r13: int, r14: int, r15: int, cf: bool, zf: bool)

  function Val(c: Cpu, r: Reg): int {
    match r
    case RAX => c.rax case RCX => c.rcx case RDX => c.rdx case RSI => c.rsi case RDI => c.rdi case RBP => c.rbp
    case RSP => c.rsp case R8 => c.r8 case R9 => c.r9 case R10 => c.r10 case R11 => c.r11
  }

  function Set(c: Cpu, r: Reg, v: int): Cpu {
    match r
    case RAX => c.(rax := v) case RCX => c.(rcx := v) case RDX => c.(rdx := v) case RSI => c.(rsi := v)
    case RDI => c.(rdi := v) case RBP => c.(rbp := v) case RSP => c.(rsp := v) case R8 => c.(r8 := v)
    case R9 => c.(r9 := v) case R10 => c.(r10 := v) case R11 => c.(r11 := v)
  }

  /** Instructions of the hand-written code; jump targets are places in the same listing. */
  datatype Instr =
    | Push(r: Reg) | PushAt(disp: int, base: Reg) | Pop(r: Reg)
    | MovImm(r: Reg, imm: int) | Mov(dst: Reg, src: Reg) | Load(dst: Reg, disp: int, base: Reg)
    | Imul(dst: Reg, src: Reg) | Cmp(dst: Reg, src: Reg) | CmpImm(r: Reg, imm: int)
    | AddImm(r: Reg, imm: int) | And16(r: Reg)
    | Jb(to: nat) | Je(to: nat) | Call(at: int) | Leave | Ret | JmpFar(at: int)

  datatype State = State(c: Cpu, mem: Mem)

  function PushWord(s: State, w: int): State {
    State(s.c.(rsp := s.c.rsp - 8), Store(s.mem, s.c.rsp - 8, w))
  }

  function Fall(s: State, n: int): State {
    s.(c := s.c.(rip := s.c.rip + n))
  }

  /** One instruction of the listing at `base`; each instruction takes one address. Comparisons are unsigned. */
  function Exec(i: Instr, base: int, s: State): State {
    var c := s.c;
    match i
    case Push(r) => Fall(PushWord(s, Val(c, r)), 1)
    case PushAt(d, b) => Fall(PushWord(s, s.mem(Val(c, b) + d)), 1)
    case Pop(r) => Fall(s.(c := Set(c.(rsp := c.rsp + 8), r, s.mem(c.rsp))), 1)
    case MovImm(r, v) => Fall(s.(c := Set(c, r, v)), 1)
    case Mov(d, r) => Fall(s.(c := Set(c, d, Val(c, r))), 1)
    case Load(d, o, b) => Fall(s.(c := Set(c, d, s.mem(Val(c, b) + o))), 1)
    case Imul(d, r) => Fall(s.(c := Set(c, d, Val(c, d) * Val(c, r) % WORD)), 1)
    case Cmp(d, r) => Fall(s.(c := c.(cf := Val(c, d) < Val(c, r), zf := Val(c, d) == Val(c, r))), 1)
    case CmpImm(r, v) => Fall(s.(c := c.(cf := Val(c, r) < v, zf := Val(c, r) == v)), 1)
    case AddImm(r, v) => Fall(s.(c := Set(c, r, Val(c, r) + v)), 1)
    case And16(r) => Fall(s.(c := Set(c, r, Val(c, r) - Val(c, r) % 16)), 1)
    case Jb(to) => if c.cf then s.(c := c.(rip := base + to)) else Fall(s, 1)
    case Je(to) => if c.zf then s.(c := c.(rip := base + to)) else Fall(s, 1)
    case Call(at) => var t := PushWord(s, c.rip + 1); t.(c := t.c.(rip := at))
    case Leave => Fall(s.(c := c.(rsp := c.rbp + 8, rbp := s.mem(c.rbp))), 1)
    case Ret => s.(c := c.(rip := s.mem(c.rsp), rsp := c.rsp + 8))
    case JmpFar(at) => s.(c := c.(rip := at))
  }

  // ---- encoded code ---------------------------------------------------------------------

  /** A displacement byte, sign-extended. */
  function Signed(b: int): int {
    if b < 128 then b else b - 256
  }

  /** An immediate byte sign-extended to 64 bits. */
  function Extend(b: int): int {
    if b < 128 then b else WORD - 256 + b
  }

  /** The k-byte little-endian number at `a`. */
  function Imm(code: int -> int, a: int, k: nat): int
    decreases k
  {
    if k == 0 then 0 else code(a) + 256 * Imm(code, a + 1, k - 1)
  }

  /** One encoded instruction of those the trampoline consists of; None for any other. */
  function ExecBytes(code: int -> int, s: State): (t: State) {
    var c := s.c;
    var b := code(c.rip);
    if b == 0x90 then Fall(s, 1)                                        // nop
    else if b == 0xeb then Fall(s, 2 + Signed(code(c.rip + 1)))          // jmp rel8
    else if b == 0x6a then Fall(PushWord(s, Extend(code(c.rip + 1))), 2) // push imm8
    else if b == 0x50 then Fall(PushWord(s, c.rax), 1)                   // push %rax
    else if b == 0x48 && code(c.rip + 1) == 0xb8 then Fall(s.(c := c.(rax := Imm(code, c.rip + 2, 8))), 10) // movabs
    else if b == 0xff && code(c.rip + 1) == 0xe0 then s.(c := c.(rip := c.rax)) // jmp *%rax
    else s
  }
}
