/**
 * The handshake between one requester and its helper thread: arguments, `ready` and a condition variable on
 * the way in, `ret` and `done` on the way out.
 */
module Helper {
  type Args = seq<int>

  const NARGS: nat := 7

  /** Where the requester is in req_helper and in the polling loop after it. */
  datatype Requester = Idle | Clear | Arg(j: nat) | Lock | SetReady | Signal | Unlock | Poll | Fetch

  /** Where the helper is in do_helper. */
  datatype Worker = Acquire | Test | Wait | ClearReady | Release | Read(seen: Args) | StoreRet(r: int) | SetDone

  datatype Owner = Nobody | Client | Server

  /**
   * The shared fields, the mutex, whether a waiting helper was signalled, both threads, and history: the
   * requests made, the system calls run with their results, and the values returned to the requester.
   */
  datatype State = State(done: bool, ready: bool, arg: Args, ret: int, owner: Owner, signalled: bool, c: Requester, h: Worker,
                         asked: seq<Args>, ran: seq<(Args, int)>, got: seq<int>)

  predicate Init(s: State) {
    && !s.done && !s.ready && |s.arg| == NARGS && s.owner == Nobody && !s.signalled && s.c == Idle && s.h == Acquire
    && s.asked == [] && s.ran == [] && s.got == []
  }

  /** Whether the requester can take a step: it may have to wait for the mutex. */
  predicate ClientCan(s: State) {
    s.c.Lock? ==> s.owner == Nobody
  }

  /** A step of the requester; `a` are the arguments of a request that begins. */
  function ClientStep(s: State, a: Args): State
    requires ClientCan(s) && |a| == NARGS && |s.arg| == NARGS && (!s.c.Idle? ==> s.asked != [] && |s.asked[|s.asked| - 1]| == NARGS)
  {
    match s.c
    case Idle => s.(c := Clear, asked := s.asked + [a])
    case Clear => s.(done := false, c := Arg(0))
    case Arg(j) =>
      if j < NARGS then s.(arg := s.arg[j := s.asked[|s.asked| - 1][j]], c := Arg(j + 1)) else s.(c := Lock)
    case Lock => s.(owner := Client, c := SetReady)
    case SetReady => s.(ready := true, c := Signal)
    case Signal => s.(signalled := s.signalled || s.h.Wait?, c := Unlock)
    case Unlock => s.(owner := Nobody, c := Poll)
    case Poll => if s.done then s.(c := Fetch) else s
    case Fetch => s.(got := s.got + [s.ret], c := Idle)
  }

  predicate ServerCan(s: State) {
    s.h.Acquire? ==> s.owner == Nobody
  }

  /** A step of the helper; `v` is the result of a system call that runs. A wait may end without a signal. */
  function ServerStep(s: State, v: int): State
    requires ServerCan(s) && |s.arg| == NARGS
  {
    match s.h
    case Acquire => s.(owner := Server, h := Test)
    case Test => if s.ready then s.(h := ClearReady) else s.(owner := Nobody, h := Wait)
    case Wait => s.(signalled := false, h := Acquire)
    case ClearReady => s.(ready := false, h := Release)
    case Release => s.(owner := Nobody, h := Read([]))
    case Read(seen) =>
      if |seen| < NARGS then s.(h := Read(seen + [s.arg[|seen|]])) else s.(ran := s.ran + [(seen, v)], h := StoreRet(v))
    case StoreRet(r) => s.(ret := r, h := SetDone)
    case SetDone => s.(done := true, h := Acquire)
  }

  // ---- the invariant --------------------------------------------------------------------

  predicate Resting(h: Worker) {
    h.Acquire? || h.Test? || h.Wait?
  }

  /** The mutex: each side holds it exactly in its critical section. */
  predicate MutexOk(s: State) {
    && (s.owner == Client <==> s.c.SetReady? || s.c.Signal? || s.c.Unlock?)
    && (s.owner == Server <==> s.h.Test? || s.h.ClearReady? || s.h.Release?)
  }

  /** Every request up to the current one was run once, in order, with its own arguments. */
  predicate HistoryOk(s: State) {
    && |s.arg| == NARGS
    && |s.got| <= |s.ran| <= |s.asked| <= |s.got| + 1
    && (s.c.Idle? <==> |s.asked| == |s.got|)
    && (forall k {:trigger s.asked[k]} :: 0 <= k < |s.asked| ==> |s.asked[k]| == NARGS)
    && (forall k {:trigger s.ran[k]} :: 0 <= k < |s.ran| ==> s.ran[k].0 == s.asked[k])
    && (forall k {:trigger s.got[k]} :: 0 <= k < |s.got| ==> s.got[k] == s.ran[k].1)
  }

  /** How far the current request has come, as both sides' positions and the shared fields tell. */
  predicate PhaseOk(s: State)
    requires HistoryOk(s)
  {
    var n := |s.got|;
    match s.c
    case Idle => !s.ready && Resting(s.h)
    case Clear => !s.ready && Resting(s.h) && |s.ran| == n
    case Arg(j) => !s.ready && !s.done && Resting(s.h) && |s.ran| == n && j <= NARGS && s.arg[..j] == s.asked[n][..j]
    case Lock => !s.ready && !s.done && Resting(s.h) && |s.ran| == n && s.arg == s.asked[n]
    case SetReady => !s.ready && !s.done && Resting(s.h) && |s.ran| == n && s.arg == s.asked[n]
    case Fetch => Answered(s)
    case _ => s.arg == s.asked[n] && (Handed(s) || Running(s) || Answering(s) || Answered(s))
  }

  /** The request waits for the helper. */
  predicate Handed(s: State) {
    && s.ready && !s.done && |s.ran| == |s.got|
    && (Resting(s.h) || s.h.ClearReady?)
    && (s.h.Wait? && !s.signalled ==> s.c.Signal?)
  }

  /** The helper has taken the request. */
  predicate Running(s: State) {
    && !s.ready && !s.done && |s.ran| == |s.got|
    && (s.h.Release? || (s.h.Read? && |s.h.seen| <= NARGS == |s.arg| && s.h.seen == s.arg[..|s.h.seen|]))
  }

  /** The system call has run, its result is on the way. */
  predicate Answering(s: State) {
    && !s.ready && !s.done && |s.ran| == |s.got| + 1
    && var r := s.ran[|s.got|].1;
    && (s.h == StoreRet(r) || (s.h.SetDone? && s.ret == r))
  }

  predicate Answered(s: State) {
    !s.ready && s.done && |s.ran| == |s.got| + 1 && s.ret == s.ran[|s.got|].1 && Resting(s.h)
  }

  predicate Inv(s: State) {
    MutexOk(s) && HistoryOk(s) && PhaseOk(s)
  }

  lemma InitInv(s: State)
    requires Init(s)
    ensures Inv(s)
  {
  }

  lemma ClientInv(s: State, a: Args)
    requires Inv(s) && ClientCan(s) && |a| == NARGS
    ensures Inv(ClientStep(s, a))
  {
    var s' := ClientStep(s, a);
    match s.c
    case Arg(j) =>
      if j < NARGS {
        assert s'.arg[..j + 1] == s.arg[..j] + [s.asked[|s.got|][j]];
      } else {
        assert s.arg[..j] == s.arg && s.asked[|s.got|][..j] == s.asked[|s.got|];
      }
    case _ =>
  }

  lemma ServerWaits(s: State, v: int)
    requires Inv(s) && ServerCan(s) && (Resting(s.h) || s.h.ClearReady? || s.h.Release?)
    ensures Inv(ServerStep(s, v))
  {
  }

  lemma ServerWorks(s: State, v: int)
    requires Inv(s) && ServerCan(s) && (s.h.Read? || s.h.StoreRet? || s.h.SetDone?)
    ensures Inv(ServerStep(s, v))
  {
    assert s.arg == s.asked[|s.got|];
    if s.h.Read? && |s.h.seen| == NARGS {
      assert s.arg[..NARGS] == s.arg;
    }
  }

  lemma ServerInv(s: State, v: int)
    requires Inv(s) && ServerCan(s)
    ensures Inv(ServerStep(s, v))
  {
    if Resting(s.h) || s.h.ClearReady? || s.h.Release? {
      ServerWaits(s, v);
    } else {
      ServerWorks(s, v);
    }
  }

  // ---- runs -----------------------------------------------------------------------------

  datatype Event = Ask(a: Args) | Serve(v: int)

  predicate Step(s: State, e: Event, s': State) {
    match e
    case Ask(a) => Inv(s) ==> ClientCan(s) && |a| == NARGS && s' == ClientStep(s, a)
    case Serve(v) => Inv(s) ==> ServerCan(s) && s' == ServerStep(s, v)
  }

  predicate Run(ss: seq<State>, es: seq<Event>) {
    && |ss| == |es| + 1
    && Init(ss[0])
    && forall i {:trigger es[i]} :: 0 <= i < |es| ==> Step(ss[i], es[i], ss[i + 1])
  }

  lemma {:induction false} RunInv(ss: seq<State>, es: seq<Event>, i: nat)
    requires Run(ss, es) && i <= |es|
    ensures Inv(ss[i])
  {
    if i == 0 {
      InitInv(ss[0]);
    } else {
      RunInv(ss, es, i - 1);
      match es[i - 1]
      case Ask(a) => ClientInv(ss[i - 1], a);
      case Serve(v) => ServerInv(ss[i - 1], v);
    }
  }

  /**
   * Under every interleaving: the k-th system call the helper runs has the arguments of the k-th request, none
   * is run twice or skipped, and the k-th value returned is the result of the k-th call, never an older one.
   */
  lemma OwnResult(ss: seq<State>, es: seq<Event>, i: nat)
    requires Run(ss, es) && i <= |es|
    ensures var s := ss[i];
            && |s.got| <= |s.ran| <= |s.asked| <= |s.got| + 1
            && (forall k :: 0 <= k < |s.ran| ==> s.ran[k].0 == s.asked[k])
            && (forall k :: 0 <= k < |s.got| ==> s.got[k] == s.ran[k].1)
  {
    RunInv(ss, es, i);
  }

  /** No wake-up is lost: a helper asleep although a request is ready is about to be signalled. */
  lemma NoLostWakeup(ss: seq<State>, es: seq<Event>, i: nat)
    requires Run(ss, es) && i <= |es|
    ensures var s := ss[i]; s.h.Wait? && s.ready && !s.signalled ==> s.c.Signal?
  {
    RunInv(ss, es, i);
  }

  // ---- every request is answered --------------------------------------------------------

  /** How many of the steps from i up to j are the requester's, and how many the helper's. */
  function Asks(es: seq<Event>, i: nat, j: nat): nat
    requires i <= j <= |es|
  {
    if i == j then 0 else Asks(es, i, j - 1) + if es[j - 1].Ask? then 1 else 0
  }

  function Serves(es: seq<Event>, i: nat, j: nat): nat
    requires i <= j <= |es|
  {
    if i == j then 0 else Serves(es, i, j - 1) + if es[j - 1].Serve? then 1 else 0
  }

  lemma {:induction false} Grows(ss: seq<State>, es: seq<Event>, i: nat, j: nat)
    requires Run(ss, es) && i <= j <= |es|
    ensures ss[i].asked <= ss[j].asked && ss[i].ran <= ss[j].ran && ss[i].got <= ss[j].got
    decreases j - i
  {
    if i < j {
      Grows(ss, es, i, j - 1);
      RunInv(ss, es, j - 1);
      assert Step(ss[j - 1], es[j - 1], ss[j]);
    }
  }

  /** The steps a requester has before it until the request is handed over: the fields, the mutex, `ready`. */
  function HandLeft(c: Requester): int {
    match c
    case Idle => 12
    case Clear => 11
    case Arg(j) => 10 - j
    case Lock => 2
    case SetReady => 1
    case _ => 0
  }

  /** The request has been handed over and its result not yet fetched. */
  predicate InService(s: State) {
    s.c.Signal? || s.c.Unlock? || s.c.Poll? || s.c.Fetch?
  }

  /** Each step of the requester's takes it one nearer to handing over, whatever the helper does meanwhile. */
  lemma {:induction false} HandsOver(ss: seq<State>, es: seq<Event>, i: nat, j: nat)
    requires Run(ss, es) && i <= j <= |es| && !InService(ss[i]) && Asks(es, i, j) <= HandLeft(ss[i].c)
    ensures HandLeft(ss[j].c) == HandLeft(ss[i].c) - Asks(es, i, j) && ss[j].got == ss[i].got
    ensures if Asks(es, i, j) == HandLeft(ss[i].c) then ss[j].c.Signal? else !InService(ss[j])
    decreases j - i
  {
    RunInv(ss, es, i);
    if i < j {
      HandsOver(ss, es, i, j - 1);
      RunInv(ss, es, j - 1);
      assert Step(ss[j - 1], es[j - 1], ss[j]);
    }
  }

  /** The steps the helper still owes for a request handed over, until `done` is set. */
  function HelperLeft(s: State): int {
    if s.done then 0 else
      match s.h
      case Wait => 15
      case Acquire => 14
      case Test => 13
      case ClearReady => 12
      case Release => 11
      case Read(seen) => 10 - |seen|
      case StoreRet(_) => 2
      case SetDone => 1
  }

  lemma HelperStepLeft(s: State, v: int)
    requires Inv(s) && InService(s) && ServerCan(s)
    ensures 0 <= HelperLeft(s) <= 15 && (HelperLeft(s) == 0 <==> s.done)
    ensures var s' := ServerStep(s, v);
            InService(s') && s'.got == s.got && HelperLeft(s') == if s.done then 0 else HelperLeft(s) - 1
  {
  }

  lemma RequesterStepLeft(s: State, a: Args)
    requires Inv(s) && InService(s) && ClientCan(s) && |a| == NARGS
    ensures var s' := ClientStep(s, a);
            if s.c.Fetch? then s.done && s'.got == s.got + [s.ret]
            else InService(s') && s'.got == s.got && HelperLeft(s') == HelperLeft(s) && s'.done == s.done
  {
  }

  /** The result of request n has been stored, or even fetched. */
  predicate Replied(s: State, n: nat) {
    |s.got| > n || (|s.got| == n && InService(s) && s.done)
  }

  /**
   * A request handed over is answered exactly when the helper has taken the steps it owed, however its steps
   * and the requester's polling interleave.
   */
  lemma HelperAnswers(ss: seq<State>, es: seq<Event>, i: nat, j: nat)
    requires Run(ss, es) && i <= j <= |es| && InService(ss[i])
    ensures Replied(ss[j], |ss[i].got|) <==> Serves(es, i, j) >= HelperLeft(ss[i])
    ensures Serves(es, i, j) >= 15 ==> Replied(ss[j], |ss[i].got|)
    ensures Replied(ss[j], |ss[i].got|) ==> |ss[j].ran| > |ss[i].got|
  {
    RunInv(ss, es, i);
    RunInv(ss, es, j);
    LeftOver(ss, es, i, j);
  }

  lemma {:induction false} LeftOver(ss: seq<State>, es: seq<Event>, i: nat, j: nat)
    requires Run(ss, es) && i <= j <= |es| && InService(ss[i])
    ensures 0 <= HelperLeft(ss[i]) <= 15
    ensures if Serves(es, i, j) >= HelperLeft(ss[i]) then Replied(ss[j], |ss[i].got|)
            else InService(ss[j]) && ss[j].got == ss[i].got && !ss[j].done && HelperLeft(ss[j]) == HelperLeft(ss[i]) - Serves(es, i, j)
    decreases j - i
  {
    RunInv(ss, es, i);
    if i < j {
      LeftOver(ss, es, i, j - 1);
      RunInv(ss, es, j - 1);
      assert Step(ss[j - 1], es[j - 1], ss[j]);
      if |ss[j - 1].got| == |ss[i].got| {
        match es[j - 1]
        case Ask(a) => RequesterStepLeft(ss[j - 1], a);
        case Serve(v) => HelperStepLeft(ss[j - 1], v);
      } else {
        Grows(ss, es, j - 1, j);
      }
    }
  }

  /** The steps a requester has before it once the result is there. */
  function FetchLeft(c: Requester): nat {
    match c
    case Signal => 4
    case Unlock => 3
    case Poll => 2
    case Fetch => 1
    case _ => 0
  }

  /** Once the result is there the requester has it exactly when it has taken the steps it still needed: two from the poll. */
  lemma {:induction false} RequesterReturns(ss: seq<State>, es: seq<Event>, i: nat, j: nat)
    requires Run(ss, es) && i <= j <= |es| && InService(ss[i]) && ss[i].done
    ensures |ss[j].got| > |ss[i].got| <==> Asks(es, i, j) >= FetchLeft(ss[i].c)
    ensures |ss[i].ran| == |ss[i].got| + 1
    ensures |ss[j].got| > |ss[i].got| ==> ss[j].got[|ss[i].got|] == ss[i].ran[|ss[i].got|].1
    ensures Asks(es, i, j) < FetchLeft(ss[i].c) ==>
              InService(ss[j]) && ss[j].done && ss[j].got == ss[i].got && FetchLeft(ss[j].c) == FetchLeft(ss[i].c) - Asks(es, i, j)
    decreases j - i
  {
    RunInv(ss, es, i);
    if i < j {
      RequesterReturns(ss, es, i, j - 1);
      RunInv(ss, es, j - 1);
      RunInv(ss, es, j);
      Grows(ss, es, i, j);
      Grows(ss, es, j - 1, j);
      assert Step(ss[j - 1], es[j - 1], ss[j]);
    }
  }

  /**
   * The whole round: twelve steps of the requester hand request a over, fifteen of the helper answer it at the
   * latest, four more of the requester fetch the answer, and it is the result of running a.
   */
  lemma RoundTrip(ss: seq<State>, es: seq<Event>, a: Args, i: nat, m: nat, p: nat, j: nat)
    requires Run(ss, es) && i < m <= p <= j <= |es| && ss[i].c.Idle? && es[i] == Ask(a)
    requires Asks(es, i, m) == 12 && Serves(es, m, p) >= 15 && Asks(es, p, j) >= 4
    ensures var n := |ss[i].got|; n < |ss[j].got| && n < |ss[j].ran| && ss[j].ran[n] == (a, ss[j].got[n])
  {
    var n := |ss[i].got|;
    RunInv(ss, es, i);
    assert Step(ss[i], es[i], ss[i + 1]);
    HandsOver(ss, es, i, m);
    HelperAnswers(ss, es, m, p);
    Grows(ss, es, p, j);
    if |ss[p].got| == n {
      RequesterReturns(ss, es, p, j);
    }
    Grows(ss, es, i + 1, j);
    assert ss[i + 1].asked == ss[i].asked + [a];
    OwnResult(ss, es, j);
  }

  /** Nobody is stuck: a helper that owes an answer is held up by the requester's last two steps at most. */
  lemma HelperHeldUp(s: State)
    requires Inv(s) && InService(s) && !s.done
    ensures ServerCan(s) || (ClientCan(s) && (s.c.Signal? || s.c.Unlock?))
  {
  }

  /** And a requester that hands over, by the helper's one step of finding nothing to do. */
  lemma RequesterHeldUp(s: State, v: int)
    requires Inv(s) && !ClientCan(s)
    ensures s.h.Test? && ServerCan(s) && ServerStep(s, v).owner == Nobody
  {
  }
}
