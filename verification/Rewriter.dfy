/**
 * The in-place instruction rewriter over an arbitrary decoder.
 */
module Rewriter {
  import opened Bitmap
  import opened Memory

  type Code = seq<byte>

  /** What the decoder says of the instruction at the front of some code. */
  datatype Insn = Insn(size: nat, syscall: bool)

  /** Lengths are positive; `syscall` and `sysenter` take two bytes. */
  ghost predicate Decodes(d: Code -> Insn) {
    forall s: Code {:trigger d(s)} :: |s| > 0 ==> d(s).size > 0 && (d(s).syscall ==> d(s).size == 2 <= |s|)
  }

  /** `t` begins with all the bytes of the instruction that `s` begins with. */
  predicate SameFront(d: Code -> Insn, s: Code, t: Code) {
    |s| > 0 && d(s).size <= |s| && s[..d(s).size] <= t
  }

  predicate StartsWithCall(s: Code) {
    CALL <= s
  }

  /** An instruction is decoded from its own bytes, and the two bytes written are a two-byte call. */
  ghost predicate Local(d: Code -> Insn) {
    && (forall s: Code, t: Code {:trigger SameFront(d, s, t)} :: SameFront(d, s, t) ==> d(t) == d(s))
    && (forall s: Code {:trigger StartsWithCall(s)} :: StartsWithCall(s) ==> d(s) == Insn(2, false))
  }

  const CALL: Code := [0xff, 0xd0]

  /** How much of the code the instruction at its front takes up; the last one may be cut short. */
  ghost function Len(d: Code -> Insn, s: Code): (n: nat)
    requires Decodes(d) && s != []
    ensures 0 < n <= |s|
  {
    assert d(s).size > 0;
    if d(s).size <= |s| then d(s).size else |s|
  }

  /** The instructions of some code, one after another. */
  ghost function Split(d: Code -> Insn, s: Code): seq<Code>
    requires Decodes(d)
  {
    if s == [] then [] else [s[..Len(d, s)]] + Split(d, s[Len(d, s)..])
  }

  ghost function Join(ins: seq<Code>): Code {
    if ins == [] then [] else ins[0] + Join(ins[1..])
  }

  /** The rewritten form of instruction `i` at address `a`. */
  function Patch(d: Code -> Insn, i: Code, a: nat, skip: nat): Code {
    if d(i).syscall && a != skip then CALL else i
  }

  /** The one-shot map: each system call, except the one at `skip`, becomes a call. */
  function PatchAll(d: Code -> Insn, ins: seq<Code>, a: nat, skip: nat): (js: seq<Code>)
    ensures |js| == |ins|
  {
    if ins == [] then [] else [Patch(d, ins[0], a, skip)] + PatchAll(d, ins[1..], a + |ins[0]|, skip)
  }

  /** What the first instruction of `s`, at address a, becomes. */
  ghost function Head(d: Code -> Insn, s: Code, a: nat, skip: nat): (h: Code)
    requires Decodes(d) && s != []
    ensures |h| == Len(d, s)
  {
    assert d(s).syscall ==> Len(d, s) == 2;
    if d(s).syscall && a != skip then CALL else s[..Len(d, s)]
  }

  /** The same map taken along the code, which the decoder sees from each instruction on. */
  ghost function Rewrite(d: Code -> Insn, s: Code, a: nat, skip: nat): (t: Code)
    requires Decodes(d)
    ensures |t| == |s|
    decreases |s|
  {
    if s == [] then [] else Head(d, s, a, skip) + Rewrite(d, s[Len(d, s)..], a + Len(d, s), skip)
  }

  /** A system call instruction starts at address v, which is not `skip`: the address is one that is rewritten. */
  ghost predicate Hit(d: Code -> Insn, s: Code, a: nat, skip: nat, v: nat)
    requires Decodes(d)
    decreases |s|
  {
    s != [] && ((v == a && d(s).syscall && a != skip) || Hit(d, s[Len(d, s)..], a + Len(d, s), skip, v))
  }

  // ---- rewriting in place ---------------------------------------------------------------

  /** On the way to `goal` the code is rewritten up to `pre`, and `rest` is as it was. */
  ghost predicate Midway(d: Code -> Insn, goal: Code, base: nat, skip: nat, pre: Code, rest: Code)
    requires Decodes(d)
  {
    pre + Rewrite(d, rest, base + |pre|, skip) == goal
  }

  lemma Advance(d: Code -> Insn, goal: Code, base: nat, skip: nat, pre: Code, rest: Code)
    requires Decodes(d) && Midway(d, goal, base, skip, pre, rest) && rest != []
    ensures var h := Head(d, rest, base + |pre|, skip);
            Midway(d, goal, base, skip, pre + h, rest[|h|..])
  {
    var a := base + |pre|;
    var h, n := Head(d, rest, a, skip), Len(d, rest);
    Reassociate(pre, h, Rewrite(d, rest[n..], a + n, skip));
  }

  lemma Reassociate(s: Code, t: Code, u: Code)
    ensures |s + t| == |s| + |t| && (s + t) + u == s + (t + u)
  {
  }

  /** The code and the bitmap are different memory. */
  ghost predicate Other(a: object, b: object) {
    a != b
  }

  /** do_rewrite, for the instruction found at `off`: a system call becomes a call and its address is recorded. */
  method DoRewrite(syscall: bool, code: array<byte>, off: nat, base: nat, skip: nat, bm: array<bv8>)
    requires off < code.Length && (syscall ==> off + 1 < code.Length) && base + code.Length <= 8 * bm.Length && Other(code, bm)
    modifies code, bm
    ensures code[..] == if syscall && base + off != skip then old(code[..])[off := 0xff][off + 1 := 0xd0] else old(code[..])
    ensures forall v: nat {:trigger IsSet(bm[..], v)} :: v < 8 * bm.Length ==>
              (IsSet(bm[..], v) <==> old(IsSet(bm[..], v)) || (syscall && base + off != skip && v == base + off))
  {
    if syscall && base + off != skip {
      code[off], code[off + 1] := 0xff, 0xd0;
      SetBit(bm, base + off);
    }
  }

  /** The written bytes as a piece between what is before and what is after. */
  lemma Written(d: Code -> Insn, pre: Code, rest: Code, a: nat, skip: nat)
    requires Decodes(d) && rest != []
    ensures var h, cur := Head(d, rest, a, skip), pre + rest;
            if d(rest).syscall && a != skip then |pre| + 1 < |cur| && cur[|pre| := 0xff][|pre| + 1 := 0xd0] == pre + h + rest[|h|..]
            else cur == pre + h + rest[|h|..]
  {
    assert d(rest).syscall ==> Len(d, rest) == 2;
  }

  /** `left` holds of the addresses still to be rewritten in `s`. */
  ghost predicate Tracks(d: Code -> Insn, s: Code, a: nat, skip: nat, left: nat -> bool)
    requires Decodes(d)
  {
    forall v: nat {:trigger Hit(d, s, a, skip, v)} :: left(v) <==> Hit(d, s, a, skip, v)
  }

  /** One turn of the loop, on values: the code before and after, and what is left to do. */
  lemma Turn(d: Code -> Insn, goal: Code, base: nat, skip: nat, cur: Code, off: nat, cur': Code, pre: Code, rest: Code)
    returns (pre': Code, rest': Code)
    requires Decodes(d) && Midway(d, goal, base, skip, pre, rest) && cur == pre + rest && rest != [] && off == |pre|
    requires cur' == if d(rest).syscall && base + off != skip && off + 1 < |cur| then cur[off := 0xff][off + 1 := 0xd0] else cur
    ensures cur' == pre' + rest' && Midway(d, goal, base, skip, pre', rest') && |rest'| < |rest|
    ensures if rest' == [] then off + d(rest).size >= |cur| else off + d(rest).size == |pre'|
    ensures |pre'| == off + Len(d, rest) && rest' == rest[Len(d, rest)..]
  {
    var h := Head(d, rest, base + off, skip);
    Written(d, pre, rest, base + off, skip);
    Advance(d, goal, base, skip, pre, rest);
    pre', rest' := pre + h, rest[|h|..];
  }

  lemma TurnHits(d: Code -> Insn, s: Code, a: nat, skip: nat, left: nat -> bool) returns (left': nat -> bool)
    requires Decodes(d) && s != [] && Tracks(d, s, a, skip, left)
    ensures Tracks(d, s[Len(d, s)..], a + Len(d, s), skip, left')
    ensures forall v: nat {:trigger left'(v)} {:trigger left(v)} :: left(v) <==> (v == a && d(s).syscall && v != skip) || left'(v)
  {
    var n := Len(d, s);
    left' := (v: nat) => Hit(d, s[n..], a + n, skip, v);
    forall v: nat ensures left(v) <==> (v == a && d(s).syscall && v != skip) || left'(v) {
      assert left(v) <==> Hit(d, s, a, skip, v);
    }
  }

  /** The bits that are set, and those still to be set, are those of `all`. */
  ghost predicate BitsOk(bits: seq<bv8>, bits0: seq<bv8>, left: nat -> bool, all: nat -> bool) {
    && |bits| == |bits0|
    && forall v: nat {:trigger IsSet(bits, v)} :: v < 8 * |bits| ==> (IsSet(bits, v) || left(v) <==> IsSet(bits0, v) || all(v))
  }

  /** Everything the loop keeps, on values. */
  ghost predicate Loop(d: Code -> Insn, goal: Code, base: nat, skip: nat, bits0: seq<bv8>, all: nat -> bool,
                       cur: Code, bits: seq<bv8>, off: nat, pre: Code, rest: Code, left: nat -> bool)
    requires Decodes(d)
  {
    && cur == pre + rest && Midway(d, goal, base, skip, pre, rest)
    && (if rest == [] then off >= |cur| else off == |pre|)
    && Tracks(d, rest, base + |pre|, skip, left) && BitsOk(bits, bits0, left, all)
  }

  lemma LoopTurn(d: Code -> Insn, goal: Code, base: nat, skip: nat, bits0: seq<bv8>, all: nat -> bool,
                 cur: Code, bits: seq<bv8>, off: nat, pre: Code, rest: Code, left: nat -> bool, cur': Code, bits': seq<bv8>)
    returns (pre': Code, rest': Code, left': nat -> bool)
    requires Decodes(d) && Loop(d, goal, base, skip, bits0, all, cur, bits, off, pre, rest, left) && rest != []
    requires var hit := d(rest).syscall && base + off != skip;
             && cur' == (if hit && off + 1 < |cur| then cur[off := 0xff][off + 1 := 0xd0] else cur)
             && |bits'| == |bits|
             && forall v: nat {:trigger IsSet(bits', v)} :: v < 8 * |bits| ==> (IsSet(bits', v) <==> IsSet(bits, v) || (hit && v == base + off))
    ensures Loop(d, goal, base, skip, bits0, all, cur', bits', off + d(rest).size, pre', rest', left') && |rest'| < |rest|
  {
    left' := TurnHits(d, rest, base + off, skip, left);
    BitsTurn(bits0, bits, bits', left, left', all, base + off, d(rest).syscall && base + off != skip);
    pre', rest' := Turn(d, goal, base, skip, cur, off, cur', pre, rest);
  }

  lemma LoopStarts(d: Code -> Insn, was: Code, base: nat, skip: nat, bits: seq<bv8>, all: nat -> bool)
    requires Decodes(d) && Tracks(d, was, base, skip, all)
    ensures Loop(d, Rewrite(d, was, base, skip), base, skip, bits, all, was, bits, 0, [], was, all)
  {
    assert [] + was == was;
    assert [] + Rewrite(d, was, base, skip) == Rewrite(d, was, base, skip);
  }

  lemma LoopEnds(d: Code -> Insn, goal: Code, base: nat, skip: nat, bits0: seq<bv8>, all: nat -> bool,
                 cur: Code, bits: seq<bv8>, off: nat, pre: Code, rest: Code, left: nat -> bool)
    requires Decodes(d) && Loop(d, goal, base, skip, bits0, all, cur, bits, off, pre, rest, left) && off >= |cur|
    ensures cur == goal && |bits| == |bits0|
    ensures forall v: nat {:trigger IsSet(bits, v)} :: v < 8 * |bits| ==> (IsSet(bits, v) <==> IsSet(bits0, v) || all(v))
  {
    assert rest == [];
    NoneLeft(d, base + |pre|, skip, left);
  }

  /** Before the end there is an instruction to look at. */
  lemma LoopReads(d: Code -> Insn, goal: Code, base: nat, skip: nat, bits0: seq<bv8>, all: nat -> bool,
                  cur: Code, bits: seq<bv8>, off: nat, pre: Code, rest: Code, left: nat -> bool)
    requires Decodes(d) && Loop(d, goal, base, skip, bits0, all, cur, bits, off, pre, rest, left) && off < |cur|
    ensures rest != [] && cur[off..] == rest && d(rest).size > 0 && (d(rest).syscall ==> off + 1 < |cur|)
  {
  }

  /** disassemble_and_rewrite, the decoder reading the code that is being rewritten. */
  method DisassembleAndRewrite(d: Code -> Insn, code: array<byte>, base: nat, skip: nat, bm: array<bv8>)
    requires Decodes(d) && base + code.Length <= 8 * bm.Length && Other(code, bm)
    modifies code, bm
    ensures code[..] == Rewrite(d, old(code[..]), base, skip)
    ensures forall v: nat {:trigger IsSet(bm[..], v)} :: v < 8 * bm.Length ==>
              (IsSet(bm[..], v) <==> old(IsSet(bm[..], v)) || Hit(d, old(code[..]), base, skip, v))
  {
    ghost var was, bits := code[..], bm[..];
    ghost var all: nat -> bool := (v: nat) => Hit(d, was, base, skip, v);
    ghost var pre, rest, left := [], was, all;
    ghost var goal := Rewrite(d, was, base, skip);
    LoopStarts(d, was, base, skip, bits, all);
    var off: nat := 0;
    while off < code.Length
      invariant Loop(d, goal, base, skip, bits, all, code[..], bm[..], off, pre, rest, left)
      decreases |rest|
    {
      ghost var cur, bits1 := code[..], bm[..];
      LoopReads(d, goal, base, skip, bits, all, cur, bits1, off, pre, rest, left);
      var i := d(code[off..]);
      DoRewrite(i.syscall, code, off, base, skip, bm);
      pre, rest, left := LoopTurn(d, goal, base, skip, bits, all, cur, bits1, off, pre, rest, left, code[..], bm[..]);
      off := off + i.size;
    }
    LoopEnds(d, goal, base, skip, bits, all, code[..], bm[..], off, pre, rest, left);
  }

  lemma BitsTurn(bits0: seq<bv8>, bits: seq<bv8>, bits': seq<bv8>, left: nat -> bool, left': nat -> bool, all: nat -> bool, a: nat, hit: bool)
    requires BitsOk(bits, bits0, left, all) && |bits'| == |bits|
    requires forall v: nat {:trigger IsSet(bits', v)} :: v < 8 * |bits| ==> (IsSet(bits', v) <==> IsSet(bits, v) || (hit && v == a))
    requires forall v: nat {:trigger left'(v)} {:trigger left(v)} :: left(v) <==> (v == a && hit) || left'(v)
    ensures BitsOk(bits', bits0, left', all)
  {
    forall v: nat | v < 8 * |bits'| ensures IsSet(bits', v) || left'(v) <==> IsSet(bits0, v) || all(v) {
      assert IsSet(bits', v) <==> IsSet(bits, v) || (hit && v == a);
      assert left(v) <==> (v == a && hit) || left'(v);
    }
  }

  lemma NoneLeft(d: Code -> Insn, a: nat, skip: nat, left: nat -> bool)
    requires Decodes(d) && Tracks(d, [], a, skip, left)
    ensures forall v: nat {:trigger left(v)} :: !left(v)
  {
    forall v: nat ensures !left(v) {
      assert left(v) <==> Hit(d, [], a, skip, v);
    }
  }

  // ---- the rewritten code is the original instruction by instruction ----------------------

  /** Decoding the rewritten code finds the rewritten first instruction, followed by the rewritten rest. */
  lemma HeadDecodes(d: Code -> Insn, s: Code, a: nat, skip: nat)
    requires Decodes(d) && Local(d) && s != []
    ensures var h, t := Head(d, s, a, skip), Rewrite(d, s, a, skip);
            && Len(d, t) == |h| && t[..|h|] == h && t[|h|..] == Rewrite(d, s[|h|..], a + |h|, skip)
            && h == Patch(d, s[..|h|], a, skip)
            && (d(t).syscall <==> d(s).syscall && a == skip)
  {
    var h, t, n := Head(d, s, a, skip), Rewrite(d, s, a, skip), Len(d, s);
    assert d(s).syscall ==> n == 2;
    assert d(s[..n]) == d(s) by {
      if d(s).size > |s| {
        assert s[..n] == s;
      } else {
        assert SameFront(d, s, s[..n]);
      }
    }
    if d(s).syscall && a != skip {
      assert StartsWithCall(t);
    } else if d(s).size > |s| {
      assert s[..n] == s && s[n..] == [];
      assert t == s;
    } else {
      assert SameFront(d, s, t);
    }
  }

  lemma SplitFront(d: Code -> Insn, s: Code, i: Code, rest: Code)
    requires Decodes(d) && s != [] && Len(d, s) == |i| && s[..|i|] == i && s[|i|..] == rest
    ensures Split(d, s) == [i] + Split(d, rest)
  {
  }

  lemma PatchFront(d: Code -> Insn, i: Code, ins: seq<Code>, a: nat, skip: nat)
    ensures PatchAll(d, [i] + ins, a, skip) == [Patch(d, i, a, skip)] + PatchAll(d, ins, a + |i|, skip)
  {
    assert ([i] + ins)[1..] == ins;
  }

  /** One instruction in front of code whose boundaries are kept. */
  lemma FrontKept(d: Code -> Insn, s: Code, i: Code, s': Code, t: Code, j: Code, t': Code, a: nat, skip: nat)
    requires Decodes(d) && s != [] && Len(d, s) == |i| && s[..|i|] == i && s[|i|..] == s'
    requires t != [] && Len(d, t) == |j| && t[..|j|] == j && t[|j|..] == t'
    requires j == Patch(d, i, a, skip) && Split(d, t') == PatchAll(d, Split(d, s'), a + |i|, skip)
    ensures Split(d, t) == PatchAll(d, Split(d, s), a, skip)
  {
    SplitFront(d, s, i, s');
    SplitFront(d, t, j, t');
    PatchFront(d, i, Split(d, s'), a, skip);
  }

  /** The first instruction and the rest, before and after. */
  lemma Fronts(d: Code -> Insn, s: Code, a: nat, skip: nat) returns (i: Code, s': Code, t: Code, j: Code, t': Code)
    requires Decodes(d) && Local(d) && s != []
    ensures Len(d, s) == |i| && s[..|i|] == i && s[|i|..] == s' && |s'| < |s|
    ensures t == Rewrite(d, s, a, skip) && t != [] && Len(d, t) == |j| && t[..|j|] == j && t[|j|..] == t'
    ensures j == Patch(d, i, a, skip) && |j| == |i| && t' == Rewrite(d, s', a + |i|, skip) && (d(t).syscall <==> d(s).syscall && a == skip)
  {
    HeadDecodes(d, s, a, skip);
    var n := Len(d, s);
    i, s', t, j, t' := s[..n], s[n..], Rewrite(d, s, a, skip), Head(d, s, a, skip), Rewrite(d, s[n..], a + n, skip);
    assert |t| == |s|;
  }

  /**
   * The rewriting keeps the instruction boundaries: the rewritten code decodes to the original instructions,
   * each system call outside `skip` exchanged for a call and every other one as it was.
   */
  lemma {:induction false} BoundariesKept(d: Code -> Insn, s: Code, a: nat, skip: nat)
    requires Decodes(d) && Local(d)
    ensures Split(d, Rewrite(d, s, a, skip)) == PatchAll(d, Split(d, s), a, skip)
    decreases |s|
  {
    if s == [] {
      assert Rewrite(d, s, a, skip) == [];
    } else {
      var i, s', t, j, t' := Fronts(d, s, a, skip);
      BoundariesKept(d, s', a + |i|, skip);
      FrontKept(d, s, i, s', t, j, t', a, skip);
    }
  }

  lemma JoinFront(i: Code, ins: seq<Code>)
    ensures Join([i] + ins) == i + Join(ins)
  {
    assert ([i] + ins)[1..] == ins;
  }

  /** And it is the one-shot map: the rewritten instructions one after another. */
  lemma {:induction false} RewriteIsMap(d: Code -> Insn, s: Code, a: nat, skip: nat)
    requires Decodes(d) && Local(d)
    ensures Rewrite(d, s, a, skip) == Join(PatchAll(d, Split(d, s), a, skip))
    decreases |s|
  {
    if s != [] {
      var i, s', t, j, t' := Fronts(d, s, a, skip);
      RewriteIsMap(d, s', a + |i|, skip);
      SplitFront(d, s, i, s');
      PatchFront(d, i, Split(d, s'), a, skip);
      JoinFront(j, PatchAll(d, Split(d, s'), a + |i|, skip));
      assert t == t[..|j|] + t[|j|..];
    }
  }

  /** No instruction of the code is one to be rewritten. */
  ghost predicate Clean(d: Code -> Insn, s: Code, a: nat, skip: nat)
    requires Decodes(d)
    decreases |s|
  {
    s == [] || (!(d(s).syscall && a != skip) && Clean(d, s[Len(d, s)..], a + Len(d, s), skip))
  }

  lemma CleanFront(d: Code -> Insn, s: Code, i: Code, rest: Code, a: nat, skip: nat)
    requires Decodes(d) && s != [] && Len(d, s) == |i| && s[|i|..] == rest
    ensures Clean(d, s, a, skip) <==> !(d(s).syscall && a != skip) && Clean(d, rest, a + |i|, skip)
  {
  }

  /** Nothing is left to rewrite afterwards ... */
  lemma {:induction false} NothingLeft(d: Code -> Insn, s: Code, a: nat, skip: nat)
    requires Decodes(d) && Local(d)
    ensures Clean(d, Rewrite(d, s, a, skip), a, skip)
    decreases |s|
  {
    if s == [] {
      assert Rewrite(d, s, a, skip) == [];
    } else {
      var i, s', t, j, t' := Fronts(d, s, a, skip);
      NothingLeft(d, s', a + |i|, skip);
      CleanFront(d, t, j, t', a, skip);
    }
  }

  /** ... and where nothing is to be rewritten, nothing changes. */
  lemma {:induction false} Unchanged(d: Code -> Insn, s: Code, a: nat, skip: nat)
    requires Decodes(d) && Clean(d, s, a, skip)
    ensures Rewrite(d, s, a, skip) == s
    decreases |s|
  {
    if s != [] {
      var n := Len(d, s);
      Unchanged(d, s[n..], a + n, skip);
      assert s == s[..n] + s[n..];
    }
  }

  /** Rewriting twice is rewriting once. */
  lemma Idempotent(d: Code -> Insn, s: Code, a: nat, skip: nat)
    requires Decodes(d) && Local(d)
    ensures Rewrite(d, Rewrite(d, s, a, skip), a, skip) == Rewrite(d, s, a, skip)
  {
    NothingLeft(d, s, a, skip);
    Unchanged(d, Rewrite(d, s, a, skip), a, skip);
  }
}
