/**
 * Batched submission to one core's io_uring by cooperative threads: control passes to another thread only
 * where a thread yields, so a step is all a thread does from one yield to the next.
 */
module IoUring {
  const TH1: nat := 8
  const TH2: nat := 1
  const WRAP: nat := 65536

  /**
   * A thread with no request, in the submit-wait loop (with the count it read and the yields it has made
   * there, less one), or in the completion loop. `e` is its queued entry.
   */
  datatype Thread = Outside | Waiting(e: nat, sub: nat, i: nat) | Completing(e: nat)

  /** pending_req and submit_cnt; the entries queued but not submitted, and those submitted. */
  datatype State = State(pending: nat, cnt: nat, queued: seq<nat>, submitted: set<nat>, threads: seq<Thread>)

  datatype Event = Arrive(t: nat, e: nat) | Resume(t: nat) | Finish(t: nat)

  predicate Init(s: State) {
    && s.pending == 0 && s.cnt == 0 && s.queued == [] && s.submitted == {}
    && forall t {:trigger s.threads[t]} :: 0 <= t < |s.threads| ==> s.threads[t] == Outside
  }

  /** io_uring_submit takes everything that is queued; the counters follow. */
  function Submit(s: State): State {
    s.(pending := 0, cnt := (s.cnt + 1) % WRAP, queued := [], submitted := s.submitted + set e | e in s.queued)
  }

  function With(s: State, t: nat, c: Thread): State
    requires t < |s.threads|
  {
    s.(threads := s.threads[t := c])
  }

  predicate Enabled(s: State, e: Event) {
    match e
    case Arrive(t, x) => t < |s.threads| && s.threads[t].Outside? && x !in s.queued && x !in s.submitted
    case Resume(t) => t < |s.threads| && s.threads[t].Waiting?
    case Finish(t) => t < |s.threads| && s.threads[t].Completing?
  }

  /** A new entry and the first part of __io_uring_bottom; a turn of its loop after a yield; the end of a request. */
  function Step(s: State, e: Event): State
    requires Enabled(s, e)
  {
    match e
    case Arrive(t, x) =>
      var u := s.(queued := s.queued + [x]);
      if s.pending >= TH1 then With(Submit(u), t, Completing(x))
      else With(u.(pending := s.pending + 1), t, Waiting(x, s.cnt, 0))
    case Resume(t) =>
      var c := s.threads[t];
      var i := c.i + 1;
      if c.sub != s.cnt then With(s, t, Completing(c.e))
      else if i > TH2 then With(Submit(s), t, Completing(c.e))
      else With(s, t, Waiting(c.e, c.sub, i))
    case Finish(t) => With(s, t, Outside)
  }

  /** The counters and the ring of one core, updated in place by whichever thread is running. */
  class Core {
    var pendingReq: nat
    var submitCnt: nat
    var queued: seq<nat>
    ghost var submitted: set<nat>
    ghost var threads: seq<Thread>

    ghost function View(): State
      reads this
    {
      State(pendingReq, submitCnt, queued, submitted, threads)
    }

    constructor (n: nat)
      ensures Init(View()) && |threads| == n
    {
      pendingReq, submitCnt, queued := 0, 0, [];
      submitted, threads := {}, seq(n, _ => Outside);
    }

    /** iouring_enter, and the counters after it. */
    method SubmitAll()
      modifies this
      ensures View() == Submit(old(View()))
    {
      submitted := submitted + set e | e in queued;
      queued := [];
      pendingReq := 0;
      submitCnt := (submitCnt + 1) % WRAP;
    }

    /** A thread queues an entry and runs __io_uring_bottom up to its first yield. */
    method Enter(ghost t: nat, e: nat) returns (subCnt: int)
      requires Enabled(View(), Arrive(t, e))
      modifies this
      ensures View() == Step(old(View()), Arrive(t, e))
      ensures subCnt == if View().threads[t].Waiting? then View().threads[t].sub else -1
    {
      queued := queued + [e];
      subCnt := -1;
      if pendingReq >= TH1 {
        SubmitAll();
        threads := threads[t := Completing(e)];
      } else {
        pendingReq := pendingReq + 1;
        subCnt := submitCnt;
        threads := threads[t := Waiting(e, subCnt, 0)];
      }
    }

    /** The turn of the submit-wait loop after a yield: whether the loop is left. */
    method Turn(ghost t: nat, subCnt: nat, i0: nat) returns (i: nat, left: bool)
      requires Enabled(View(), Resume(t)) && threads[t].sub == subCnt && threads[t].i == i0
      modifies this
      ensures View() == Step(old(View()), Resume(t))
      ensures left <==> View().threads[t].Completing?
      ensures i == i0 + 1
    {
      i := i0 + 1;
      left := true;
      if subCnt == submitCnt {
        if i > TH2 {
          SubmitAll();
        } else {
          left := false;
        }
      }
      threads := threads[t := if left then Completing(threads[t].e) else Waiting(threads[t].e, subCnt, i)];
    }
  }

  // ---- the invariant --------------------------------------------------------------------

  /** A waiting thread's entry is submitted unless the count is still what the thread read. */
  predicate ThreadOk(c: Thread, s: State) {
    match c
    case Outside => true
    case Waiting(e, sub, i) => i <= TH2 && (e in s.submitted || (e in s.queued && sub == s.cnt))
    case Completing(e) => e in s.submitted
  }

  ghost predicate Inv(s: State) {
    && s.pending == |s.queued| <= TH1 && s.cnt < WRAP
    && (forall x {:trigger x in s.submitted} :: x in s.queued ==> x !in s.submitted)
    && (forall t {:trigger s.threads[t]} :: 0 <= t < |s.threads| ==> ThreadOk(s.threads[t], s))
  }

  lemma StepInv(s: State, e: Event)
    requires Inv(s) && Enabled(s, e)
    ensures Inv(Step(s, e))
  {
    var s' := Step(s, e);
    forall t | 0 <= t < |s'.threads| ensures ThreadOk(s'.threads[t], s') {
      assert ThreadOk(s.threads[t], s);
    }
  }

  // ---- runs -----------------------------------------------------------------------------

  predicate Run(ss: seq<State>, es: seq<Event>) {
    && |ss| == |es| + 1
    && Init(ss[0])
    && forall i {:trigger es[i]} :: 0 <= i < |es| ==> Enabled(ss[i], es[i]) && ss[i + 1] == Step(ss[i], es[i])
  }

  lemma {:induction false} RunInv(ss: seq<State>, es: seq<Event>, i: nat)
    requires Run(ss, es) && i <= |es|
    ensures Inv(ss[i])
  {
    if i > 0 {
      RunInv(ss, es, i - 1);
      assert Enabled(ss[i - 1], es[i - 1]);
      StepInv(ss[i - 1], es[i - 1]);
    }
  }

  /**
   * At every yield pending_req is the number of queued entries, at most TH1 of them, and every thread in the
   * completion loop has had its entry submitted, however often the count has wrapped around.
   */
  lemma BatchesSound(ss: seq<State>, es: seq<Event>, i: nat)
    requires Run(ss, es) && i <= |es|
    ensures ss[i].pending == |ss[i].queued| <= TH1
    ensures forall t :: 0 <= t < |ss[i].threads| && ss[i].threads[t].Completing? ==>
              ss[i].threads[t].e in ss[i].submitted && ss[i].threads[t].e !in ss[i].queued
  {
    RunInv(ss, es, i);
    var s := ss[i];
    forall t | 0 <= t < |s.threads| && s.threads[t].Completing? ensures s.threads[t].e in s.submitted {
      assert ThreadOk(s.threads[t], s);
    }
  }

  /** No event of thread t lies between a and b. */
  predicate NoneOf(es: seq<Event>, t: nat, a: nat, b: nat)
    requires b <= |es|
  {
    forall i {:trigger es[i]} :: a < i < b ==> es[i].t != t
  }

  /** Others' steps leave a thread where it is. */
  lemma {:induction false} Stays(ss: seq<State>, es: seq<Event>, t: nat, a: nat, b: nat)
    requires Run(ss, es) && a < b <= |es| && NoneOf(es, t, a, b) && t < |ss[a + 1].threads|
    ensures t < |ss[b].threads| && ss[b].threads[t] == ss[a + 1].threads[t]
    decreases b - a
  {
    if a + 1 < b {
      assert Enabled(ss[b - 1], es[b - 1]) && es[b - 1].t != t;
      Stays(ss, es, t, a, b - 1);
    }
  }

  /** The thread is in the completion loop, and its entry x is submitted. */
  predicate Submitted(s: State, t: nat, x: nat) {
    t < |s.threads| && s.threads[t] == Completing(x) && x in s.submitted
  }

  /** The thread is in the submit-wait loop and has yielded there i + 1 times. */
  predicate WaitsWith(s: State, t: nat, x: nat, i: nat) {
    t < |s.threads| && s.threads[t].Waiting? && s.threads[t].e == x && s.threads[t].i == i
  }

  lemma ResumeLeaves(ss: seq<State>, es: seq<Event>, t: nat, x: nat, b: nat, i: nat)
    requires Run(ss, es) && b < |es| && es[b] == Resume(t) && WaitsWith(ss[b], t, x, i)
    ensures Submitted(ss[b + 1], t, x) || (i < TH2 && WaitsWith(ss[b + 1], t, x, i + 1))
  {
    assert Enabled(ss[b], es[b]);
    RunInv(ss, es, b + 1);
    assert ThreadOk(ss[b + 1].threads[t], ss[b + 1]);
  }

  /**
   * Within two yields: a thread that arrives at event a and resumes at event b is then in the completion loop,
   * its entry submitted; or else it waits once more, and is there right after its next resumption.
   */
  lemma TwoYields(ss: seq<State>, es: seq<Event>, t: nat, x: nat, a: nat, b: nat)
    requires Run(ss, es) && a < b < |es| && es[a] == Arrive(t, x) && es[b] == Resume(t) && NoneOf(es, t, a, b)
    ensures || Submitted(ss[b + 1], t, x)
            || (WaitsWith(ss[b + 1], t, x, 1) &&
                forall c {:trigger es[c]} :: b < c < |es| && es[c] == Resume(t) && NoneOf(es, t, b, c) ==> Submitted(ss[c + 1], t, x))
  {
    assert Enabled(ss[a], es[a]) && Enabled(ss[b], es[b]);
    Stays(ss, es, t, a, b);
    ResumeLeaves(ss, es, t, x, b, 0);
    if !Submitted(ss[b + 1], t, x) {
      forall c | b < c < |es| && es[c] == Resume(t) && NoneOf(es, t, b, c) ensures Submitted(ss[c + 1], t, x) {
        Stays(ss, es, t, b, c);
        ResumeLeaves(ss, es, t, x, c, 1);
      }
    }
  }

  // ---- when entries are submitted -------------------------------------------------------

  /** What a step does to the entries: all that are queued are submitted, or only a new one is queued. */
  predicate Submits(s: State, e: Event, s': State) {
    var queue := if e.Arrive? then s.queued + [e.e] else s.queued;
    && s'.queued == [] && s'.submitted == s.submitted + set x | x in queue
    && s'.cnt == (s.cnt + 1) % 65536 && s'.cnt != s.cnt
  }

  predicate Queues(s: State, e: Event, s': State) {
    && s'.queued == (if e.Arrive? then s.queued + [e.e] else s.queued)
    && s'.submitted == s.submitted && s'.cnt == s.cnt
  }

  /** A thread comes back from its second yield and nothing was submitted since it queued its entry. */
  predicate TurnOfSecond(s: State, e: Event) {
    e.Resume? && e.t < |s.threads| && s.threads[e.t].Waiting? && s.threads[e.t].i == 1 && s.threads[e.t].sub == s.cnt
  }

  /**
   * Exactly two things submit: an entry that arrives when eight are pending, and a thread that comes back from
   * its second yield with the count unchanged. Everything queued is then submitted at once, and nothing otherwise.
   */
  lemma SubmitsExactly(s: State, e: Event)
    requires Inv(s) && Enabled(s, e)
    ensures if (e.Arrive? && |s.queued| == 8) || TurnOfSecond(s, e) then Submits(s, e, Step(s, e)) else Queues(s, e, Step(s, e))
  {
  }

  /** The latest event of a waiting thread. */
  lemma {:induction false} LatestOf(ss: seq<State>, es: seq<Event>, t: nat, b: nat) returns (a: nat)
    requires Run(ss, es) && b <= |es| && t < |ss[b].threads| && ss[b].threads[t].Waiting?
    ensures a < b && es[a].t == t && NoneOf(es, t, a, b)
    ensures t < |ss[a].threads| && t < |ss[a + 1].threads| && ss[a + 1].threads[t] == ss[b].threads[t]
  {
    assert b > 0;
    assert Enabled(ss[b - 1], es[b - 1]);
    if es[b - 1].t == t {
      a := b - 1;
    } else {
      a := LatestOf(ss, es, t, b - 1);
    }
  }

  /** In a run that is what the place in the loop means: the thread arrived, and has resumed once before. */
  lemma SecondOfTwo(ss: seq<State>, es: seq<Event>, c: nat) returns (a: nat, b: nat)
    requires Run(ss, es) && c < |es| && TurnOfSecond(ss[c], es[c])
    ensures a < b < c && es[a].Arrive? && es[a].t == es[c].t && es[b] == Resume(es[c].t)
    ensures NoneOf(es, es[c].t, a, b) && NoneOf(es, es[c].t, b, c)
  {
    var t := es[c].t;
    b := LatestOf(ss, es, t, c);
    assert Enabled(ss[b], es[b]);
    a := LatestOf(ss, es, t, b);
    assert Enabled(ss[a], es[a]);
  }
}
