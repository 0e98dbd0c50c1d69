/** pthread_once: the routine runs once, and nobody returns before it has ended. */
module Once {
  datatype Pc = Cas | Running | Ending | Spin | Returned

  /** The control word, the threads, how often the routine was begun and how often it has ended. */
  datatype State = State(word: nat, pcs: seq<Pc>, begun: nat, ended: nat)

  predicate Init(s: State) {
    && s.word == 0 && s.begun == 0 && s.ended == 0
    && forall t {:trigger s.pcs[t]} :: 0 <= t < |s.pcs| ==> s.pcs[t] == Cas
  }

  function Step(s: State, t: nat): State
    requires t < |s.pcs|
  {
    match s.pcs[t]
    case Cas =>
      if s.word == 0 then State(1, s.pcs[t := Running], s.begun + 1, s.ended) else s.(pcs := s.pcs[t := Spin])
    case Running => s.(pcs := s.pcs[t := Ending], ended := s.ended + 1)
    case Ending => s.(word := 2, pcs := s.pcs[t := Returned])
    case Spin => if s.word == 2 then s.(pcs := s.pcs[t := Returned]) else s
    case Returned => s
  }

  /** Thread k runs the routine. */
  predicate Busy(s: State, k: nat) {
    && s.word == 1 && k < |s.pcs| && s.begun == 1
    && ((s.pcs[k].Running? && s.ended == 0) || (s.pcs[k].Ending? && s.ended == 1))
    && forall t {:trigger s.pcs[t]} :: 0 <= t < |s.pcs| && t != k ==> s.pcs[t].Cas? || s.pcs[t].Spin?
  }

  predicate Over(s: State) {
    && s.word == 2 && s.begun == 1 && s.ended == 1
    && forall t {:trigger s.pcs[t]} :: 0 <= t < |s.pcs| ==> !s.pcs[t].Running? && !s.pcs[t].Ending?
  }

  ghost predicate Inv(s: State) {
    Init(s) || (exists k: nat :: Busy(s, k)) || Over(s)
  }

  lemma StepInv(s: State, t: nat)
    requires Inv(s) && t < |s.pcs|
    ensures Inv(Step(s, t))
  {
    var s' := Step(s, t);
    if Init(s) {
      assert Busy(s', t);
    } else if Over(s) {
      assert Over(s');
    } else {
      var k: nat :| Busy(s, k);
      if t == k && s.pcs[k].Ending? {
        assert Over(s');
      } else {
        assert Busy(s', k);
      }
    }
  }

  predicate Run(ss: seq<State>, ts: seq<nat>) {
    && |ss| == |ts| + 1
    && Init(ss[0])
    && forall i {:trigger ts[i]} :: 0 <= i < |ts| ==> ts[i] < |ss[i].pcs| && ss[i + 1] == Step(ss[i], ts[i])
  }

  lemma {:induction false} RunInv(ss: seq<State>, ts: seq<nat>, i: nat)
    requires Run(ss, ts) && i <= |ts|
    ensures Inv(ss[i])
  {
    if i > 0 {
      RunInv(ss, ts, i - 1);
      assert ts[i - 1] < |ss[i - 1].pcs|;
      StepInv(ss[i - 1], ts[i - 1]);
    }
  }

  /** In every run the routine is begun at most once, and whoever has returned did so after its end. */
  lemma RoutineOnce(ss: seq<State>, ts: seq<nat>, i: nat)
    requires Run(ss, ts) && i <= |ts|
    ensures ss[i].begun <= 1
    ensures (exists t :: 0 <= t < |ss[i].pcs| && ss[i].pcs[t].Returned?) ==> ss[i].ended == ss[i].begun == 1
  {
    RunInv(ss, ts, i);
    var s := ss[i];
    if k: nat :| Busy(s, k) {
      assert !s.pcs[k].Returned?;
    }
  }

  // ---- everybody returns ----------------------------------------------------------------

  /** How many of the steps from i up to j are thread t's. */
  function Own(ts: seq<nat>, t: nat, i: nat, j: nat): nat
    requires i <= j <= |ts|
  {
    if i == j then 0 else Own(ts, t, i, j - 1) + if ts[j - 1] == t then 1 else 0
  }

  /** The steps a thread still needs once the routine is over. */
  function Left(c: Pc): nat {
    match c
    case Cas => 2
    case Spin => 1
    case _ => 0
  }

  /** The steps of the thread that runs the routine until everybody may go. */
  function RunnerLeft(c: Pc): nat {
    match c
    case Running => 2
    case Ending => 1
    case _ => 0
  }

  /** Once the routine is over a thread has returned exactly if it has taken the steps it still needed, two at most. */
  lemma {:induction false} OverReturns(ss: seq<State>, ts: seq<nat>, t: nat, i: nat, j: nat)
    requires Run(ss, ts) && i <= j <= |ts| && Over(ss[i]) && t < |ss[i].pcs|
    ensures Over(ss[j]) && |ss[j].pcs| == |ss[i].pcs|
    ensures ss[j].pcs[t] == Returned <==> Own(ts, t, i, j) >= Left(ss[i].pcs[t])
    ensures Own(ts, t, i, j) < Left(ss[i].pcs[t]) ==> Left(ss[j].pcs[t]) == Left(ss[i].pcs[t]) - Own(ts, t, i, j)
    decreases j - i
  {
    if i < j {
      OverReturns(ss, ts, t, i, j - 1);
      assert ts[j - 1] < |ss[j - 1].pcs|;
    }
  }

  /** The routine is over exactly when the thread that runs it has taken its two steps, whatever the others do. */
  lemma {:induction false} RunnerEnds(ss: seq<State>, ts: seq<nat>, k: nat, i: nat, j: nat)
    requires Run(ss, ts) && i <= j <= |ts| && Busy(ss[i], k)
    ensures Over(ss[j]) <==> Own(ts, k, i, j) >= RunnerLeft(ss[i].pcs[k])
    ensures Own(ts, k, i, j) < RunnerLeft(ss[i].pcs[k]) ==>
              Busy(ss[j], k) && RunnerLeft(ss[j].pcs[k]) == RunnerLeft(ss[i].pcs[k]) - Own(ts, k, i, j)
    ensures |ss[j].pcs| == |ss[i].pcs|
    decreases j - i
  {
    if i < j {
      RunnerEnds(ss, ts, k, i, j - 1);
      assert ts[j - 1] < |ss[j - 1].pcs|;
    }
  }

  /** The first step of a run begins the routine. */
  lemma FirstRuns(ss: seq<State>, ts: seq<nat>)
    requires Run(ss, ts) && ts != []
    ensures Busy(ss[1], ts[0]) && ss[1].pcs[ts[0]] == Running
  {
    assert ts[0] < |ss[0].pcs|;
  }

  /**
   * pthread_once returns to every thread: the thread that comes first takes three steps in all, and any thread
   * that then takes two more of its own has returned.
   */
  lemma EveryoneReturns(ss: seq<State>, ts: seq<nat>, t: nat, i: nat, j: nat)
    requires Run(ss, ts) && 1 <= i <= j <= |ts| && t < |ss[0].pcs| && Own(ts, ts[0], 1, i) >= 2
    ensures |ss[j].pcs| == |ss[0].pcs| && ss[j].ended == 1 && (Own(ts, t, i, j) >= 2 ==> ss[j].pcs[t] == Returned)
    ensures ss[j].pcs[ts[0]] == Returned
  {
    FirstRuns(ss, ts);
    RunnerEnds(ss, ts, ts[0], 1, i);
    OverReturns(ss, ts, t, i, j);
    OverReturns(ss, ts, ts[0], i, j);
    RunnerGone(ss, ts, i);
  }

  /** When the routine is over the thread that ran it has returned. */
  lemma {:induction false} RunnerGone(ss: seq<State>, ts: seq<nat>, i: nat)
    requires Run(ss, ts) && 1 <= i <= |ts|
    ensures Over(ss[i]) ==> ts[0] < |ss[i].pcs| && ss[i].pcs[ts[0]] == Returned
  {
    FirstRuns(ss, ts);
    if i > 1 {
      RunnerGone(ss, ts, i - 1);
      RunInv(ss, ts, i - 1);
      RunnerEnds(ss, ts, ts[0], 1, i - 1);
      assert ts[i - 1] < |ss[i - 1].pcs|;
    }
  }
}
