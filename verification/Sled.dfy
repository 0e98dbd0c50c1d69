/** The trampoline at address 0: a sled of `n` bytes and the jump to the hook. */
module Sled {
  import opened X86
  import opened Iteration
  import M = Modular

  /** Byte i of the sled. */
  function SledByte(n: int, i: nat): int {
    if n - 0x6a - 2 < i then 0x90 else if i % 3 == 0 then 0xeb else if i % 3 == 1 then 0x6a else 0x90
  }

  /** Byte j of a little-endian word. */
  function ByteOf(w: int, j: nat): int
    decreases j
  {
    if j == 0 then w % 256 else ByteOf(w / 256, j - 1)
  }

  /** Byte i of the jump: push %rax; movabs hook, %rax; jmp *%rax. */
  function JumpByte(hook: int, i: nat): int {
    if i == 0 then 0x50 else if i == 1 then 0x48 else if i == 2 then 0xb8
    else if i < 11 then ByteOf(hook, i - 3)
    else if i == 11 then 0xff else 0xe0
  }

  const JUMP_SIZE: nat := 13

  /** The page's contents where the trampoline stands. */
  ghost predicate IsTrampoline(code: int -> int, n: nat, hook: int) {
    && (forall i: nat {:trigger code(i)} :: i < n ==> code(i) == SledByte(n, i))
    && (forall x {:trigger code(x)} :: n <= x < n + JUMP_SIZE ==> code(x) == JumpByte(hook, x - n))
  }

  /** setup_trampoline: the fill loop, then the jump. */
  method SetupTrampoline(mem: array<int>, n: nat, hook: int)
    requires n + JUMP_SIZE <= mem.Length
    modifies mem
    ensures forall i :: 0 <= i < n ==> mem[i] == SledByte(n, i)
    ensures forall i :: 0 <= i < JUMP_SIZE ==> mem[n + i] == JumpByte(hook, i)
    ensures forall i :: n + JUMP_SIZE <= i < mem.Length ==> mem[i] == old(mem[i])
  {
    for i := 0 to n
      invariant forall k :: 0 <= k < i ==> mem[k] == SledByte(n, k)
      invariant forall k :: n <= k < mem.Length ==> mem[k] == old(mem[k])
    {
      if n - 0x6a - 2 < i {
        mem[i] := 0x90;
      } else {
        var x := i % 3;
        match x {
          case 0 => mem[i] := 0xeb;
          case 1 => mem[i] := 0x6a;
          case _ => mem[i] := 0x90;
        }
      }
    }
    mem[n], mem[n + 1], mem[n + 2] := 0x50, 0x48, 0xb8;
    for j := 0 to 8
      invariant forall k :: 0 <= k < n ==> mem[k] == SledByte(n, k)
      invariant forall k :: 0 <= k < 3 + j ==> mem[n + k] == JumpByte(hook, k)
      invariant forall k :: n + JUMP_SIZE <= k < mem.Length ==> mem[k] == old(mem[k])
    {
      mem[n + 3 + j] := ByteOf(hook, j);
    }
    mem[n + 0xb], mem[n + 0xc] := 0xff, 0xe0;
  }

  // ---- running it -----------------------------------------------------------------------

  function Stepper(code: int -> int): State -> State {
    s => ExecBytes(code, s)
  }

  function Run(code: int -> int, s: State, k: nat): State {
    Iterate(Stepper(code), s, k)
  }

  function At(s: State, ip: int): State {
    s.(c := s.c.(rip := ip))
  }

  /** Entries from which a word is pushed on the way down. */
  predicate Pushes(n: nat, i: nat) {
    i % 3 == 1 && i <= n - 108
  }

  /** The first k steps are taken inside the sled. */
  ghost predicate Inside(code: int -> int, n: nat, s: State, k: nat)
    decreases k
  {
    k == 0 || (0 <= s.c.rip < n && Inside(code, n, ExecBytes(code, s), k - 1))
  }

  /** From an entry that pushes nothing the sled runs to exactly its end, changing nothing else. */
  lemma {:induction false} Slides(code: int -> int, n: nat, s: State) returns (k: nat)
    requires n % 3 != 0 && (forall i: nat {:trigger code(i)} :: i < n ==> code(i) == SledByte(n, i))
    requires 0 <= s.c.rip <= n && !Pushes(n, s.c.rip)
    ensures Run(code, s, k) == At(s, n)
    ensures k <= n - s.c.rip && Inside(code, n, s, k)
    decreases n - s.c.rip
  {
    var i := s.c.rip;
    if i == n {
      k := 0;
    } else {
      var t := ExecBytes(code, s);
      assert code(i) == SledByte(n, i);
      if code(i) == 0xeb {
        assert code(i + 1) == 0x6a;
        assert t == At(s, i + 108);
      } else {
        assert t == At(s, i + 1);
      }
      k := Slides(code, n, t);
      k := k + 1;
    }
  }

  /**
   * From every entry the sled ends exactly at its end. One word, the sign-extended filler, is on the stack
   * if the entry is the second byte of a jump; otherwise nothing is.
   */
  lemma SledRuns(code: int -> int, n: nat, s: State) returns (k: nat)
    requires n % 3 != 0 && (forall i: nat {:trigger code(i)} :: i < n ==> code(i) == SledByte(n, i))
    requires 0 <= s.c.rip < n
    ensures Run(code, s, k) == At(if Pushes(n, s.c.rip) then PushWord(s, 0xffff_ffff_ffff_ff90) else s, n)
    ensures k <= n - s.c.rip && Inside(code, n, s, k)
  {
    var i := s.c.rip;
    if Pushes(n, i) {
      var t := ExecBytes(code, s);
      assert code(i) == 0x6a && code(i + 1) == 0x90;
      assert t == At(PushWord(s, Extend(0x90)), i + 2);
      k := Slides(code, n, t);
      k := k + 1;
    } else {
      k := Slides(code, n, s);
    }
  }

  /** The three places a sled of a length divisible by three keeps returning to, in turn. */
  predicate Trapped(n: nat, ip: int) {
    ip == n - 108 || ip == n - 218 || ip == n - 216
  }

  /** The steps of a round already paid for by the word it pushes. */
  function Credit(n: nat, ip: int): int {
    if ip == n - 218 then 1 else if ip == n - 216 then -1 else 0
  }

  lemma LoopStep(code: int -> int, n: nat, s: State)
    requires n % 3 == 0 && n >= 218 && (forall i: nat {:trigger code(i)} :: i < n ==> code(i) == SledByte(n, i))
    requires Trapped(n, s.c.rip)
    ensures var t := ExecBytes(code, s).c;
            Trapped(n, t.rip) && 3 * t.rsp - 8 * Credit(n, t.rip) == 3 * s.c.rsp - 8 * Credit(n, s.c.rip) - 8
  {
    var i := s.c.rip;
    assert code(i) == SledByte(n, i) && code(i + 1) == SledByte(n, i + 1);
  }

  /** From one of the three such a sled never ends, and pushes a word every three steps. */
  lemma {:induction false} SledLoops(code: int -> int, n: nat, s: State, k: nat)
    requires n % 3 == 0 && n >= 218 && (forall i: nat {:trigger code(i)} :: i < n ==> code(i) == SledByte(n, i))
    requires Trapped(n, s.c.rip)
    ensures var t := Run(code, s, k).c;
            Trapped(n, t.rip) && 3 * t.rsp - 8 * Credit(n, t.rip) == 3 * s.c.rsp - 8 * Credit(n, s.c.rip) - 8 * k
    decreases k
  {
    if k > 0 {
      LoopStep(code, n, s);
      SledLoops(code, n, ExecBytes(code, s), k - 1);
    }
  }

  /** The next jump's address. */
  function Up3(i: nat): nat {
    (i + 2) / 3 * 3
  }

  /** The jumps from entry i on lead to the last one, which in a sled of a length divisible by three goes back. */
  predicate Returning(n: nat, i: nat) {
    n % 3 == 0 && Up3(i) <= n - 108 && (n - 108 - Up3(i)) % 108 == 0
  }

  /** Where an instruction of such a sled leads. */
  function NextIp(n: nat, i: nat): int {
    if i > n - 108 then i + 1
    else if i % 3 == 1 then i + 2 else if i % 3 == 2 then i + 1 else if i < n - 108 then i + 108 else i - 110
  }

  lemma StepsTo(code: int -> int, n: nat, s: State)
    requires n % 3 == 0 && (forall i: nat {:trigger code(i)} :: i < n ==> code(i) == SledByte(n, i))
    requires 0 <= s.c.rip < n
    ensures ExecBytes(code, s).c.rip == NextIp(n, s.c.rip)
  {
    var i := s.c.rip;
    assert code(i) == SledByte(n, i);
    if i + 1 < n {
      assert code(i + 1) == SledByte(n, i + 1);
    }
  }

  lemma NextReturns(n: nat, i: nat)
    requires n >= 218 && Returning(n, i)
    ensures i <= n - 108 && 0 <= NextIp(n, i) < n && Returning(n, NextIp(n, i))
  {
    var m, q := n / 3, Up3(i) / 3;
    assert n == 3 * m && Up3(i) == 3 * q;
    if i % 3 == 0 {
      assert i == 3 * q;
      if q < m - 36 {
        assert Up3(i + 108) == 3 * (q + 36);
      } else {
        assert Up3(i - 110) == 3 * (q - 36);
      }
    }
  }

  lemma ReturningStep(code: int -> int, n: nat, s: State)
    requires n >= 218 && (forall i: nat {:trigger code(i)} :: i < n ==> code(i) == SledByte(n, i))
    requires 0 <= s.c.rip < n && Returning(n, s.c.rip)
    ensures 0 <= ExecBytes(code, s).c.rip < n && Returning(n, ExecBytes(code, s).c.rip)
  {
    NextReturns(n, s.c.rip);
    StepsTo(code, n, s);
  }

  lemma {:induction false} ReturningStays(code: int -> int, n: nat, s: State, k: nat)
    requires n >= 218 && (forall i: nat {:trigger code(i)} :: i < n ==> code(i) == SledByte(n, i))
    requires 0 <= s.c.rip < n && Returning(n, s.c.rip)
    ensures 0 <= Run(code, s, k).c.rip < n
    decreases k
  {
    if k > 0 {
      ReturningStep(code, n, s);
      ReturningStays(code, n, ExecBytes(code, s), k - 1);
    }
  }

  lemma NextEnds(n: nat, i: nat)
    requires n % 3 == 0 && i < n && !Returning(n, i)
    ensures i < NextIp(n, i) <= n && !Returning(n, NextIp(n, i))
  {
    var m, q := n / 3, Up3(i) / 3;
    assert n == 3 * m && Up3(i) == 3 * q;
    if i % 3 == 0 && i < n - 108 {
      assert i == 3 * q && Up3(i + 108) == 3 * (q + 36);
    }
  }

  lemma {:induction false} Ends(code: int -> int, n: nat, s: State) returns (k: nat)
    requires forall i: nat {:trigger code(i)} :: i < n ==> code(i) == SledByte(n, i)
    requires 0 <= s.c.rip <= n && n % 3 == 0 && !Returning(n, s.c.rip)
    ensures Run(code, s, k).c.rip == n
    decreases n - s.c.rip
  {
    hide ExecBytes, SledByte, Returning, NextIp;
    if s.c.rip == n {
      k := 0;
    } else {
      StepsTo(code, n, s);
      NextEnds(n, s.c.rip);
      k := Ends(code, n, ExecBytes(code, s));
      k := k + 1;
    }
  }

  /**
   * Exactly which entries of a sled reach its end: all of them unless its length is divisible by three, and
   * then those whose next jump is not a whole number of jumps before the last one.
   */
  lemma EndsExactly(code: int -> int, n: nat, s: State)
    requires (n % 3 != 0 || n >= 218) && (forall i: nat {:trigger code(i)} :: i < n ==> code(i) == SledByte(n, i))
    requires 0 <= s.c.rip < n
    ensures (exists k: nat {:trigger Run(code, s, k)} :: Run(code, s, k).c.rip == n) <==> !Returning(n, s.c.rip)
  {
    if Returning(n, s.c.rip) {
      forall k: nat ensures Run(code, s, k).c.rip != n {
        ReturningStays(code, n, s, k);
      }
    } else {
      var k;
      if n % 3 != 0 {
        k := SledRuns(code, n, s);
      } else {
        k := Ends(code, n, s);
      }
      assert Run(code, s, k).c.rip == n;
    }
  }

  /** A little-endian number is read back. */
  lemma {:induction false} ImmReads(code: int -> int, a: int, k: nat, w: int)
    requires 0 <= w < Pow256(k) && forall x {:trigger code(x)} :: a <= x < a + k ==> code(x) == ByteOf(w, x - a)
    ensures Imm(code, a, k) == w
    decreases k
  {
    if k > 0 {
      forall x | a + 1 <= x < a + k ensures code(x) == ByteOf(w / 256, x - a - 1) {
        assert code(x) == ByteOf(w, x - a);
      }
      ImmReads(code, a + 1, k - 1, w / 256);
    }
  }

  // ---- the pop test ---------------------------------------------------------------------

  const MULTIPLIER: int := 0xaaaa_aaaa_aaaa_aaab

  /** The multiply-and-compare test tells the numbers of the form 3m + 1 among all 64-bit ones. */
  lemma PopTest(rax: int)
    requires 0 <= rax < WORD
    ensures rax * MULTIPLIER % WORD >= MULTIPLIER <==> rax % 3 == 1
  {
    var q, r := rax / 3, rax % 3;
    assert 3 * MULTIPLIER == 2 * WORD + 1;
    assert rax * MULTIPLIER == q + r * MULTIPLIER + 2 * q * WORD;
    var x := if r == 2 then q + 2 * MULTIPLIER - WORD else q + r * MULTIPLIER;
    M.DivModUnique(rax * MULTIPLIER, WORD, 2 * q + (if r == 2 then 1 else 0), x);
  }

  /** The hook pops what the sled pushed exactly for the entries up to n - 108 and those that are not 3m + 1. */
  lemma Balanced(n: nat, i: nat)
    requires i < n < WORD
    ensures (i * MULTIPLIER % WORD >= MULTIPLIER <==> Pushes(n, i)) <==> (i <= n - 108 || i % 3 != 1)
  {
    PopTest(i);
  }
}
