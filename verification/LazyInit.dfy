/**
 * First use of a zeroed mutex or condition variable by any number of threads: the word in the object is
 * claimed by compare-and-swap on its low half, then replaced by the address of the wrapper.
 */
module LazyInit {
  const HALF: nat := 0x1_0000_0000
  const MARK: nat := 0xffff_ffff

  function Low(word: nat): nat {
    word % HALF
  }

  /** A wrapper address that is not mistaken for an unclaimed or a claimed object. */
  predicate Good(p: nat) {
    p % 0x1_0000_0000 != 0 && p % 0x1_0000_0000 != 0xffff_ffff
  }

  /** Where a thread is in get_abt_mutex or get_abt_cond. */
  datatype Pc = Check | Cas | Alloc | Create(p: nat) | Publish(p: nat) | Spin | Load | Returned(p: nat)

  /** The object's word, the threads, the wrappers allocated so far and those whose creation has finished. */
  datatype State = State(word: nat, pcs: seq<Pc>, allocs: seq<nat>, ready: set<nat>)

  /** get_abt_cond has no check before the swap. */
  function Start(cond: bool): Pc {
    if cond then Cas else Check
  }

  predicate Init(s: State, cond: bool) {
    && s.word == 0 && s.allocs == [] && s.ready == {}
    && forall t {:trigger s.pcs[t]} :: 0 <= t < |s.pcs| ==> s.pcs[t] == Start(cond)
  }

  /** One access of thread t to shared memory; `p` is what the allocator would return to it. */
  function Step(s: State, cond: bool, t: nat, p: nat): State
    requires t < |s.pcs|
  {
    match s.pcs[t]
    case Check => s.(pcs := s.pcs[t := if Low(s.word) == 0 then Cas else Spin])
    case Cas =>
      if Low(s.word) == 0 then s.(word := s.word - Low(s.word) + MARK, pcs := s.pcs[t := Alloc])
      else s.(pcs := s.pcs[t := Spin])
    case Alloc => s.(allocs := s.allocs + [p], pcs := s.pcs[t := Create(p)])
    case Create(q) => s.(ready := s.ready + {q}, pcs := s.pcs[t := Publish(q)])
    case Publish(q) => s.(word := q, pcs := s.pcs[t := if cond then Load else Spin])
    case Spin => s.(pcs := s.pcs[t := if Low(s.word) == MARK then Spin else Load])
    case Load => s.(pcs := s.pcs[t := Returned(s.word)])
    case Returned(_) => s
  }

  // ---- the invariant --------------------------------------------------------------------

  predicate Outside(c: Pc) {
    c.Check? || c.Cas?
  }

  predicate Unclaimed(s: State) {
    && s.word == 0 && s.allocs == []
    && forall t {:trigger s.pcs[t]} :: 0 <= t < |s.pcs| ==> Outside(s.pcs[t])
  }

  /** Thread k is making the wrapper, and everybody else is kept out. */
  predicate Claimed(s: State, k: nat) {
    && s.word == MARK && k < |s.pcs|
    && (forall t {:trigger s.pcs[t]} :: 0 <= t < |s.pcs| && t != k ==> Outside(s.pcs[t]) || s.pcs[t].Spin?)
    && match s.pcs[k]
       case Alloc => s.allocs == []
       case Create(p) => s.allocs == [p] && Good(p)
       case Publish(p) => s.allocs == [p] && Good(p) && p in s.ready
       case _ => false
  }

  predicate Published(s: State) {
    && Good(s.word) && s.allocs == [s.word] && s.word in s.ready
    && forall t {:trigger s.pcs[t]} :: 0 <= t < |s.pcs| ==>
         var c := s.pcs[t]; Outside(c) || c.Spin? || c.Load? || c == Returned(s.word)
  }

  ghost predicate Inv(s: State) {
    Unclaimed(s) || (exists k: nat :: Claimed(s, k)) || Published(s)
  }

  lemma StepInv(s: State, cond: bool, t: nat, p: nat)
    requires Inv(s) && t < |s.pcs| && (s.pcs[t].Alloc? ==> Good(p))
    ensures Inv(Step(s, cond, t, p))
  {
    var s' := Step(s, cond, t, p);
    if Unclaimed(s) {
      if s.pcs[t].Cas? {
        assert Claimed(s', t);
      }
    } else if Published(s) {
      assert Published(s');
    } else {
      var k: nat :| Claimed(s, k);
      if t == k && s.pcs[k].Publish? {
        assert Published(s');
      } else {
        assert Claimed(s', k);
      }
    }
  }

  // ---- runs -----------------------------------------------------------------------------

  /** A run: any threads step in any order; the allocator's answers are in `ps`. */
  predicate Run(ss: seq<State>, cond: bool, ts: seq<nat>, ps: seq<nat>) {
    && |ts| == |ps| && |ss| == |ts| + 1
    && Init(ss[0], cond)
    && forall i {:trigger ts[i]} :: 0 <= i < |ts| ==> ts[i] < |ss[i].pcs| && ss[i + 1] == Step(ss[i], cond, ts[i], ps[i])
  }

  lemma {:induction false} RunInv(ss: seq<State>, cond: bool, ts: seq<nat>, ps: seq<nat>, i: nat)
    requires Run(ss, cond, ts, ps) && i <= |ts| && forall j :: 0 <= j < |ps| ==> Good(ps[j])
    ensures Inv(ss[i])
  {
    if i > 0 {
      RunInv(ss, cond, ts, ps, i - 1);
      assert ts[i - 1] < |ss[i - 1].pcs|;
      StepInv(ss[i - 1], cond, ts[i - 1], ps[i - 1]);
    } else {
      assert Unclaimed(ss[0]);
    }
  }

  /**
   * Exactly once: in every run at most one wrapper is made, and every thread that has returned did so with
   * that wrapper, whose creation was finished. This holds for the mutex and for the condition variable.
   */
  lemma ExactlyOnce(ss: seq<State>, cond: bool, ts: seq<nat>, ps: seq<nat>, i: nat)
    requires Run(ss, cond, ts, ps) && i <= |ts| && forall j :: 0 <= j < |ps| ==> Good(ps[j])
    ensures |ss[i].allocs| <= 1
    ensures forall t :: 0 <= t < |ss[i].pcs| && ss[i].pcs[t].Returned? ==>
              ss[i].allocs == [ss[i].pcs[t].p] && ss[i].pcs[t].p in ss[i].ready
  {
    RunInv(ss, cond, ts, ps, i);
    var s := ss[i];
    if k: nat :| Claimed(s, k) {
      assert !s.pcs[k].Returned?;
    }
  }

  /** How many steps of its own a thread still needs once the wrapper is published. */
  function Rank(c: Pc): nat {
    match c
    case Check => 3
    case Cas => 3
    case Spin => 2
    case Load => 1
    case _ => 0
  }

  /** After publication each step of a thread takes it one nearer to its return, and no other thread holds it up. */
  lemma PublishedStep(s: State, cond: bool, t: nat, u: nat, p: nat)
    requires Published(s) && t < |s.pcs| && u < |s.pcs|
    ensures var s' := Step(s, cond, u, p);
            && Published(s') && s'.word == s.word && |s'.pcs| == |s.pcs|
            && Rank(s'.pcs[t]) == Rank(s.pcs[t]) - (if t == u && Rank(s.pcs[t]) > 0 then 1 else 0)
            && (Rank(s'.pcs[t]) == 0 <==> s'.pcs[t] == Returned(s.word))
  {
  }

  /** How many of the steps from i up to j are thread t's. */
  function Own(ts: seq<nat>, t: nat, i: nat, j: nat): nat
    requires i <= j <= |ts|
    decreases j - i
  {
    if i == j then 0 else Own(ts, t, i, j - 1) + if ts[j - 1] == t then 1 else 0
  }

  /**
   * Once the wrapper is published a thread has returned with it exactly if it has taken the steps it still
   * needed then, three at most, whatever the others have done meanwhile.
   */
  lemma {:induction false} PublishedReturns(ss: seq<State>, cond: bool, ts: seq<nat>, ps: seq<nat>, t: nat, i: nat, j: nat)
    requires Run(ss, cond, ts, ps) && i <= j <= |ts| && Published(ss[i]) && t < |ss[i].pcs|
    ensures Published(ss[j]) && ss[j].word == ss[i].word && |ss[j].pcs| == |ss[i].pcs|
    ensures ss[j].pcs[t] == Returned(ss[i].word) <==> Own(ts, t, i, j) >= Rank(ss[i].pcs[t])
    ensures Own(ts, t, i, j) >= 3 ==> ss[j].pcs[t] == Returned(ss[i].word)
  {
    RankLeft(ss, cond, ts, ps, t, i, j);
  }

  lemma {:induction false} RankLeft(ss: seq<State>, cond: bool, ts: seq<nat>, ps: seq<nat>, t: nat, i: nat, j: nat)
    requires Run(ss, cond, ts, ps) && i <= j <= |ts| && Published(ss[i]) && t < |ss[i].pcs|
    ensures Published(ss[j]) && ss[j].word == ss[i].word && |ss[j].pcs| == |ss[i].pcs|
    ensures var left := Rank(ss[i].pcs[t]) - Own(ts, t, i, j); Rank(ss[j].pcs[t]) == if left > 0 then left else 0
    ensures Rank(ss[j].pcs[t]) == 0 <==> ss[j].pcs[t] == Returned(ss[i].word)
    decreases j - i
  {
    if i < j {
      RankLeft(ss, cond, ts, ps, t, i, j - 1);
      assert ts[j - 1] < |ss[j - 1].pcs|;
      PublishedStep(ss[j - 1], cond, t, ts[j - 1], ps[j - 1]);
    }
  }

  // ---- what bad addresses do ------------------------------------------------------------

  /** Thread 0 claims the object, makes a wrapper at p and publishes it. */
  lemma FirstMakes(cond: bool, p: nat) returns (ss: seq<State>, ts: seq<nat>, ps: seq<nat>)
    requires Low(p) == 0
    ensures Run(ss, cond, ts, ps) && |ss[0].pcs| == 2
    ensures ss[|ts|] == State(p, [if cond then Load else Spin, Start(cond)], [p], {p})
  {
    var s0 := State(0, [Start(cond), Start(cond)], [], {});
    ss, ts, ps := [s0], [], [];
    if !cond {
      ss, ts, ps := [s0, Step(s0, cond, 0, p)], [0], [p];
    }
    var s1 := ss[|ts|];
    assert s1 == State(0, [Cas, Start(cond)], [], {});
    var s2 := Step(s1, cond, 0, p);
    var s3 := Step(s2, cond, 0, p);
    var s4 := Step(s3, cond, 0, p);
    var s5 := Step(s4, cond, 0, p);
    ss, ts, ps := ss + [s2, s3, s4, s5], ts + [0, 0, 0, 0], ps + [p, p, p, p];
  }

  lemma Onwards(ss: seq<State>, cond: bool, ts: seq<nat>, ps: seq<nat>, t: nat, p: nat) returns (s: State)
    requires Run(ss, cond, ts, ps) && t < |ss[|ts|].pcs|
    ensures s == Step(ss[|ts|], cond, t, p) && Run(ss + [s], cond, ts + [t], ps + [p])
  {
    s := Step(ss[|ts|], cond, t, p);
  }

  /** With an address whose low half is zero a second thread makes a second wrapper, although the first has returned. */
  lemma ZeroHalfMakesTwo(cond: bool, p: nat, q: nat) returns (ss: seq<State>, ts: seq<nat>, ps: seq<nat>)
    requires p % 0x1_0000_0000 == 0
    ensures Run(ss, cond, ts, ps) && |ss[0].pcs| == 2
    ensures ss[|ts|].allocs == [p, q] && |ss[|ts|].pcs| == 2 && ss[|ts|].pcs[0] == Returned(p)
  {
    ss, ts, ps := FirstMakes(cond, p);
    var s;
    if !cond {
      s := Onwards(ss, cond, ts, ps, 0, p);
      ss, ts, ps := ss + [s], ts + [0], ps + [p];
    }
    s := Onwards(ss, cond, ts, ps, 0, p);
    ss, ts, ps := ss + [s], ts + [0], ps + [p];
    assert s == State(p, [Returned(p), Start(cond)], [p], {p});
    if !cond {
      s := Onwards(ss, cond, ts, ps, 1, q);
      ss, ts, ps := ss + [s], ts + [1], ps + [q];
    }
    assert s == State(p, [Returned(p), Cas], [p], {p});
    s := Onwards(ss, cond, ts, ps, 1, q);
    ss, ts, ps := ss + [s], ts + [1], ps + [q];
    s := Onwards(ss, cond, ts, ps, 1, q);
    ss, ts, ps := ss + [s], ts + [1], ps + [q];
  }

  /** The object stays claimed by thread k, which alone can have made a wrapper; every other thread is kept out. */
  predicate Blocked(s: State, cond: bool, k: nat) {
    && Low(s.word) == MARK && k < |s.pcs|
    && (forall t {:trigger s.pcs[t]} :: 0 <= t < |s.pcs| && t != k ==> Outside(s.pcs[t]) || s.pcs[t].Spin?)
    && ((s.pcs[k].Create? || s.pcs[k].Publish?) ==> Low(s.pcs[k].p) == MARK)
    && !Outside(s.pcs[k]) && (if cond then !s.pcs[k].Spin? else !s.pcs[k].Load? && !s.pcs[k].Returned?)
  }

  ghost predicate Kept(s: State, cond: bool) {
    || (Low(s.word) == 0 && forall t {:trigger s.pcs[t]} :: 0 <= t < |s.pcs| ==> Outside(s.pcs[t]))
    || exists k: nat :: Blocked(s, cond, k)
  }

  lemma KeptStep(s: State, cond: bool, t: nat, p: nat)
    requires Kept(s, cond) && t < |s.pcs| && Low(p) == MARK
    ensures Kept(Step(s, cond, t, p), cond)
  {
    var s' := Step(s, cond, t, p);
    if k: nat :| Blocked(s, cond, k) {
      assert Blocked(s', cond, k);
    } else if s.pcs[t].Cas? {
      assert Blocked(s', cond, t);
    }
  }

  /**
   * With addresses whose low half is the mark no two threads ever return: with a mutex none does, with a
   * condition variable at most the one that made it.
   */
  lemma {:induction false} MarkHalfBlocks(ss: seq<State>, cond: bool, ts: seq<nat>, ps: seq<nat>, i: nat)
    requires Run(ss, cond, ts, ps) && i <= |ts| && forall j :: 0 <= j < |ps| ==> ps[j] % 0x1_0000_0000 == 0xffff_ffff
    ensures Kept(ss[i], cond)
    ensures forall t, u :: 0 <= t < |ss[i].pcs| && 0 <= u < |ss[i].pcs| && ss[i].pcs[t].Returned? && ss[i].pcs[u].Returned? ==> t == u
    ensures !cond ==> forall t :: 0 <= t < |ss[i].pcs| ==> !ss[i].pcs[t].Returned?
  {
    if i > 0 {
      MarkHalfBlocks(ss, cond, ts, ps, i - 1);
      assert ts[i - 1] < |ss[i - 1].pcs|;
      KeptStep(ss[i - 1], cond, ts[i - 1], ps[i - 1]);
    }
  }
}
