/** Whole runs of the machine with chosen calls, put together from the steps of `Bench`. */
module Workload {
  import opened Memory
  import opened Sizes
  import opened Machine
  import opened Bench
  import opened Rounds
  import V = Volume
  import N = NvmeQueue
  import NS = NvmeSafety
  import Service
  import C = Calls
  import S = Stack
  import R = ReadAfterWrite
  import Y = Layout
  import H = HookIo

  datatype Trace = Trace(ms: seq<Machine>, es: seq<Event>)

  ghost predicate Ok(t: Trace) {
    |t.ms| == |t.es| + 1 && Run(t.ms, t.es)
  }

  function Now(t: Trace): Machine
    requires |t.ms| > 0
  {
    t.ms[|t.ms| - 1]
  }

  /** In state m, an event of call id alone, or one that serves it. */
  predicate Mine(m: Machine, e: Event, id: nat, write: bool) {
    e.Poll? || e.Device? || (e.Issue? && e.id == id && id in m.pool.calls && m.pool.calls[id].write == write)
  }

  /** The trace goes on with such events. */
  ghost predicate Later(t: Trace, t': Trace, id: nat, write: bool) {
    && t.ms <= t'.ms && t.es <= t'.es && |t'.ms| == |t'.es| + 1
    && forall j {:trigger t'.es[j]} :: |t.es| <= j < |t'.es| ==> Mine(t'.ms[j], t'.es[j], id, write)
  }

  lemma Add(t: Trace, e: Event, m: Machine) returns (t': Trace)
    requires Ok(t) && Inv(Now(t)) && Step(Now(t), e, m)
    ensures Ok(t') && Now(t') == m && t' == Trace(t.ms + [m], t.es + [e])
    ensures forall id: nat, write: bool {:trigger Mine(Now(t), e, id, write)} :: Mine(Now(t), e, id, write) ==> Later(t, t', id, write)
  {
    hide Inv, Step;
    Extend(t.ms, t.es, e, m);
    t' := Trace(t.ms + [m], t.es + [e]);
  }

  lemma LaterStill(t: Trace, t1: Trace, t2: Trace, id: nat, write: bool)
    requires Later(t, t1, id, write) && Later(t1, t2, id, write)
    ensures Later(t, t2, id, write)
  {
  }

  /** Every request has been fetched, and none is between there and consumption. */
  ghost predicate Calm(q: N.Queue) {
    && q.fetched == |q.log|
    && forall j {:trigger q.log[j]} :: 0 <= j < |q.log| ==> q.log[j].stage.Fetched? || q.log[j].stage.Consumed?
  }

  ghost predicate Steady(m: Machine) {
    Base(m) && Calm(m.queues[U])
  }

  /** One more request, and that one is fetched. */
  lemma CalmAgain(q: N.Queue, q': N.Queue)
    requires Calm(q) && |q'.log| == |q.log| + 1 && q'.fetched == |q'.log| && q'.log[|q.log|].stage.Fetched?
    requires forall j {:trigger q'.log[j]} :: 0 <= j < |q.log| ==> q'.log[j] == q.log[j]
    ensures Calm(q')
  {
  }

  /** A call's next request goes out and is fetched. */
  lemma Send(t: Trace, id: nat) returns (t': Trace, k: nat, tick: Ticket)
    requires Ok(t) && Steady(Now(t)) && id in Now(t).pool.calls && id in Now(t).awaits
    requires Service.OnlyLast(Now(t).queues[U]) && Ready(S.At(Now(t).pool), Now(t).pool.calls[id], Entries(Now(t)))
    ensures Ok(t') && Later(t, t', id, Now(t).pool.calls[id].write) && Steady(Now(t')) && SameSize(Now(t), Now(t'))
    ensures k == |Now(t).queues[U].log| && |Now(t').queues[U].log| == k + 1 && Now(t').queues[U].log[k].stage.Fetched?
    ensures S.Issues(Now(t).pool, id, (U, k), Now(t').pool)
    ensures tick.qp == U && tick.nth == k
    ensures Now(t').awaits == Now(t).awaits[id := Now(t).awaits[id] + {tick}] && Now(t').last == Now(t).last[id := (U, k)]
    ensures Now(t').queues[U].log[..k] == Now(t).queues[U].log
    ensures Now(t').pool.reqs[(U, k)].write && k < Now(t).qd ==> Service.Loaded(Now(t').queues[U], k, Now(t').pool.reqs[(U, k)].data)
  {
    hide Base, Ready, S.Issues, S.At, N.DoSubmit, Service.Loaded, Inv, Init, StepAt, QueuesOk, DeviceStep, N.Enabled, ReqOf;
    var m := Now(t);
    Basics(m);
    var m1 := GoIssue(m, id);
    Basics(m1);
    k := |m.queues[U].log|;
    tick := Ticket(Rids(m)(U, m.queues[U].sqTail), U, k);
    var t1 := Add(t, Issue(id, U), m1);
    assert Mine(m, Issue(id, U), id, m.pool.calls[id].write);
    var m2 := GoFetch(m1);
    Basics(m2);
    t' := Add(t1, Device(U, N.Fetch), m2);
    assert Mine(m1, Device(U, N.Fetch), id, m.pool.calls[id].write);
    CalmAgain(m.queues[U], m2.queues[U]);
    if m1.pool.reqs[(U, k)].write && k < m.qd {
      Service.LoadedKept(m1.queues[U], m2.queues[U], k, m1.pool.reqs[(U, k)].data);
    }
  }

  /** Request k is posted, and no other one is between the drive and the host. */
  ghost predicate PostedAlone(q: N.Queue, k: nat) {
    && q.fetched == |q.log| && k < |q.log| && q.log[k].stage.Posted?
    && forall j {:trigger q.log[j]} :: 0 <= j < |q.log| && j != k ==> q.log[j].stage.Fetched? || q.log[j].stage.Consumed?
  }

  lemma AloneAgain(q: N.Queue, k: nat, q1: N.Queue, q2: N.Queue)
    requires Calm(q) && Restaged(q, k, q1) && Restaged(q1, k, q2) && q2.log[k].stage.Posted?
    ensures PostedAlone(q2, k)
  {
  }

  lemma CalmWith(q: N.Queue, k: nat, q': N.Queue)
    requires PostedAlone(q, k) && Restaged(q, k, q') && q'.log[k].stage.Consumed?
    ensures Calm(q')
  {
  }

  lemma NoneElse(q: N.Queue, k: nat)
    requires PostedAlone(q, k)
    ensures forall j {:trigger q.log[j]} :: 0 <= j < |q.log| && j != k ==> !q.log[j].stage.Posted?
  {
  }

  /** The requests other than k are where they were. */
  predicate OthersSame(q: N.Queue, k: nat, q': N.Queue) {
    |q'.log| == |q.log| && forall j {:trigger q'.log[j]} :: 0 <= j < |q.log| && j != k ==> q'.log[j] == q.log[j]
  }

  lemma SameLength(q: N.Queue, k: nat, q': N.Queue)
    requires Restaged(q, k, q')
    ensures k < |q.log| == |q'.log| && OthersSame(q, k, q')
  {
  }

  /** A fetched request is carried out and posted; `sectors` are what was transferred. */
  lemma CarryOut(t: Trace, id: nat, k: nat, data: seq<byte>, write: bool) returns (t': Trace, sectors: seq<byte>)
    requires Ok(t) && Steady(Now(t)) && k < |Now(t).queues[U].log| && Now(t).queues[U].log[k].stage.Fetched?
    ensures Ok(t') && Later(t, t', id, write) && Base(Now(t')) && PostedAlone(Now(t').queues[U], k) && SameSize(Now(t), Now(t'))
    ensures OthersSame(Now(t).queues[U], k, Now(t').queues[U]) && Now(t').last == Now(t).last && Now(t').awaits == Now(t).awaits
    ensures S.CanExecute(Now(t).pool, (U, k), sectors) && Now(t').pool == S.Executes(Now(t).pool, (U, k), sectors)
    ensures Service.Loaded(Now(t).queues[U], k, data) ==> Padded(data, sectors)
  {
    hide Base, Run, Later, S.CanExecute, Service.Loaded, S.Executes, Inv, QueuesOk, DeviceStep, N.Enabled, Restaged;
    var m := Now(t);
    Basics(m);
    var m1 := GoExecute(m, k);
    Basics(m1);
    SameLength(m.queues[U], k, m1.queues[U]);
    sectors := m1.queues[U].log[k].stage.data;
    if Service.Loaded(m.queues[U], k, data) {
      LoadedGoes(m, k, m1, data);
    }
    assert Mine(m, Device(U, N.Execute(k)), id, write);
    var t1 := Add(t, Device(U, N.Execute(k)), m1);
    var m2 := GoPost(m1, k);
    Basics(m2);
    SameLength(m1.queues[U], k, m2.queues[U]);
    assert Mine(m1, Device(U, N.Post(k)), id, write);
    t' := Add(t1, Device(U, N.Post(k)), m2);
    AloneAgain(m.queues[U], k, m1.queues[U], m2.queues[U]);
    LaterStill(t, t1, t', id, write);
  }

  /** A posted request is consumed and seen complete. */
  lemma TakeIn(t: Trace, id: nat, k: nat, tick: Ticket, write: bool) returns (t': Trace)
    requires Ok(t) && Base(Now(t)) && PostedAlone(Now(t).queues[U], k)
    requires id in Now(t).awaits && tick in Now(t).awaits[id] && tick.qp == U && tick.nth == k
    ensures Ok(t') && Later(t, t', id, write) && Steady(Now(t')) && SameSize(Now(t), Now(t'))
    ensures OthersSame(Now(t).queues[U], k, Now(t').queues[U]) && Now(t').queues[U].log[k].stage.Consumed? && Now(t').last == Now(t).last
    ensures Now(t').awaits == Now(t).awaits[id := Now(t).awaits[id] - {tick}]
    ensures S.Step(Now(t).pool, S.Consume((U, k)), Now(t').pool)
  {
    hide Base, Run, Later, S.Step, Inv, QueuesOk, DeviceStep, PollStep, N.Enabled, Restaged, Calm;
    var m := Now(t);
    Basics(m);
    NoneElse(m.queues[U], k);
    var m1 := GoConsume(m, k);
    Basics(m1);
    SameLength(m.queues[U], k, m1.queues[U]);
    assert Mine(m, Device(U, N.Consume), id, write);
    var t1 := Add(t, Device(U, N.Consume), m1);
    CalmWith(m.queues[U], k, m1.queues[U]);
    var m2 := GoPoll(m1, id, tick);
    assert Mine(m1, Poll(id, tick), id, write);
    t' := Add(t1, Poll(id, tick), m2);
    LaterStill(t, t1, t', id, write);
  }

  lemma OverAgain(q: N.Queue, k: nat, q1: N.Queue, q2: N.Queue, q3: N.Queue)
    requires k == |q.log| && |q1.log| == k + 1 && q1.log[..k] == q.log && OthersSame(q1, k, q2) && OthersSame(q2, k, q3)
    requires |q3.log| == k + 1 ==> q3.log[k].stage.Consumed?
    ensures |q3.log| == k + 1 && (NS.AllOver(q) ==> NS.AllOver(q3))
  {
    forall j | 0 <= j < k ensures q3.log[j] == q.log[j] {
      assert q1.log[j] == q1.log[..k][j];
    }
  }

  lemma PoolInv(m: Machine)
    requires Base(m)
    ensures S.Inv(m.pool)
  {
  }

  lemma ReadyFile(s: S.State, c: C.Call, big: nat)
    requires |s.disks| > 0 && Ready(S.At(s), c, big)
    ensures c.file == 0 && c.issued < c.len
  {
  }

  /** A call's next request goes out and is over before anything else happens; s1 is the pool once it has gone out. */
  lemma ServeRound(t: Trace, id: nat) returns (t': Trace, k: V.Key, s1: S.State, sectors: seq<byte>)
    requires Ok(t) && Steady(Now(t)) && id in Now(t).pool.calls && id in Now(t).awaits
    requires Service.OnlyLast(Now(t).queues[U]) && Ready(S.At(Now(t).pool), Now(t).pool.calls[id], Entries(Now(t)))
    ensures Ok(t') && Later(t, t', id, Now(t).pool.calls[id].write) && Steady(Now(t')) && SameSize(Now(t), Now(t'))
    ensures |Now(t').queues[U].log| == |Now(t).queues[U].log| + 1
    ensures NS.AllOver(Now(t).queues[U]) ==> NS.AllOver(Now(t').queues[U])
    ensures id in Now(t').awaits && Now(t').awaits[id] <= Now(t).awaits[id]
    ensures Round(Now(t).pool, id, k, s1, sectors, Now(t').pool)
    ensures s1.reqs[k].write && |Now(t).queues[U].log| < Now(t).qd ==> Padded(s1.reqs[k].data, sectors)
  {
    hide Base, Run, Inv, Init, StepAt, Calm, Ready, S.Issues, S.CanExecute, S.Step, S.Executes, S.At, Service.Loaded, Service.OnlyLast,
         N.Inv, Service.CleanTail, NS.AllOver, OthersSame, Entries, Later, Padded, Y.Extended, Y.Injective, V.Placed;
    Basics(Now(t));
    PoolInv(Now(t));
    ReadyFile(Now(t).pool, Now(t).pool.calls[id], Entries(Now(t)));
    var t1, n, tick := Send(t, id);
    k, s1 := (U, n), Now(t1).pool;
    Basics(Now(t1));
    IssuePlaces(Now(t).pool, id, k, s1);
    var t2;
    t2, sectors := CarryOut(t1, id, n, s1.reqs[k].data, Now(t).pool.calls[id].write);
    Basics(Now(t2));
    t' := TakeIn(t2, id, n, tick, Now(t).pool.calls[id].write);
    LaterStill(t, t1, t2, id, Now(t).pool.calls[id].write);
    LaterStill(t, t2, t', id, Now(t).pool.calls[id].write);
    Basics(Now(t'));
    OverAgain(Now(t).queues[U], n, Now(t1).queues[U], Now(t2).queues[U], Now(t').queues[U]);
  }

  /** What that leaves. */
  lemma Serve(t: Trace, id: nat) returns (t': Trace)
    requires Ok(t) && Steady(Now(t)) && id in Now(t).pool.calls && id in Now(t).awaits
    requires Service.OnlyLast(Now(t).queues[U]) && Ready(S.At(Now(t).pool), Now(t).pool.calls[id], Entries(Now(t)))
    ensures Ok(t') && Later(t, t', id, Now(t).pool.calls[id].write) && Steady(Now(t')) && SameSize(Now(t), Now(t'))
    ensures |Now(t').queues[U].log| == |Now(t).queues[U].log| + 1
    ensures NS.AllOver(Now(t).queues[U]) ==> NS.AllOver(Now(t').queues[U])
    ensures id in Now(t').awaits && Now(t').awaits[id] <= Now(t).awaits[id]
    ensures Moved(Now(t).pool, id, Now(t').pool)
    ensures if Now(t).pool.calls[id].write then WriteLeft(Now(t).pool, Now(t).pool.calls[id], Now(t').pool, |Now(t).queues[U].log| < Now(t).qd)
            else ReadLeft(Now(t).pool, Now(t).pool.calls[id], Now(t').pool)
  {
    hide Base, Run, Inv, Init, StepAt, Calm, Ready, S.Issues, S.CanExecute, S.Step, S.Executes, S.At, Moved, WriteLeft, ReadLeft,
         Service.OnlyLast, NS.AllOver, Entries, Later, Padded, Y.Extended, Y.Injective, V.Placed;
    Basics(Now(t));
    ReadyFile(Now(t).pool, Now(t).pool.calls[id], Entries(Now(t)));
    var s := Now(t).pool;
    var k, s1, sectors;
    t', k, s1, sectors := ServeRound(t, id);
    RoundMoves(s, id, k, s1, sectors, Now(t').pool);
    NextIs(s, id, k, s1);
    CarriesData(s1, k, sectors);
    if s.calls[id].write {
      RoundWrites(s, id, k, s1, sectors, Now(t').pool, |Now(t).queues[U].log| < Now(t).qd);
    } else {
      RoundReads(s, id, k, s1, sectors, Now(t').pool);
    }
  }

  // ---- a write, request by request ------------------------------------------------------

  /** There is more for the call to issue, or more than its last request. */
  predicate More(c: C.Call, all: bool) {
    if all then c.issued < c.len else c.issued + C.SizeOf(c) < c.len
  }

  /** A write whose next request leaves no hole, with nothing else under way. */
  ghost predicate Going(m: Machine, id: nat)
    requires U in m.queues && |m.pool.disks| > 0
  {
    && id in m.pool.calls && id in m.awaits
    && var c := m.pool.calls[id];
    && c.file == 0 && c.write && Filled(m.pool, c)
    && (c.pos + c.issued == 0 || (0, c.pos + c.issued - 1) in S.At(m.pool))
    && c.pos + c.len < Entries(m) && NS.AllOver(m.queues[U])
  }

  lemma GoingReady(m: Machine, id: nat)
    requires U in m.queues && |m.pool.disks| == 1 && Going(m, id) && m.pool.calls[id].issued < m.pool.calls[id].len
    ensures Ready(S.At(m.pool), m.pool.calls[id], Entries(m)) && Service.OnlyLast(m.queues[U])
  {
  }

  lemma GoingOn(m: Machine, id: nat, m': Machine, clean: bool)
    requires U in m.queues && |m.pool.disks| > 0 && U in m'.queues && |m'.pool.disks| > 0
    requires Going(m, id) && Wrote(m.pool, id, m'.pool, clean) && id in m'.awaits && SameSize(m, m') && NS.AllOver(m'.queues[U])
    requires m.pool.calls[id].issued < m'.pool.calls[id].issued && m'.pool.calls[id].issued < m'.pool.calls[id].len
    ensures Going(m', id)
  {
    hide S.At, NS.AllOver;
    var d := m'.pool.calls[id];
    assert Has(m'.pool, d, d.pos + d.issued - 1);
  }

  lemma LaterSame(t: Trace, id: nat, write: bool)
    requires |t.ms| == |t.es| + 1
    ensures Later(t, t, id, write)
  {
  }

  lemma CallIsOk(m: Machine, id: nat)
    requires Base(m) && id in m.pool.calls
    ensures C.CallOk(m.pool.calls[id])
  {
  }

  /** There are unused slots for all the requests the call may still issue. */
  predicate Roomy(m: Machine, id: nat)
    requires U in m.queues && id in m.pool.calls
  {
    |m.queues[U].log| + m.pool.calls[id].len - m.pool.calls[id].issued < m.qd
  }

  /** The call goes on, each request being over before the next is issued. */
  lemma {:induction false} WriteOn(t: Trace, id: nat, all: bool, clean: bool) returns (t': Trace)
    requires Ok(t) && Steady(Now(t)) && Going(Now(t), id) && Now(t).pool.calls[id].issued < Now(t).pool.calls[id].len
    requires clean ==> Roomy(Now(t), id)
    ensures Ok(t') && Later(t, t', id, true) && Steady(Now(t')) && SameSize(Now(t), Now(t')) && NS.AllOver(Now(t').queues[U])
    ensures Wrote(Now(t).pool, id, Now(t').pool, clean) && !More(Now(t').pool.calls[id], all)
    ensures id in Now(t').awaits && Now(t').awaits[id] <= Now(t).awaits[id]
    ensures !all ==> Going(Now(t'), id) && Now(t').pool.calls[id].issued < Now(t').pool.calls[id].len
    ensures |Now(t').queues[U].log| <= |Now(t).queues[U].log| + Now(t).pool.calls[id].len - Now(t).pool.calls[id].issued
    decreases Now(t).pool.calls[id].len - Now(t).pool.calls[id].issued
  {
    hide Base, Run, Inv, Init, StepAt, Calm, Ready, S.At, WriteLeft, C.CallOk, Filled, H.WriteSize, H.ReadSize, Stands, Later, Wrote, Moved, NS.AllOver;
    Basics(Now(t));
    var c := Now(t).pool.calls[id];
    if !More(c, all) {
      WroteNone(Now(t).pool, id, clean);
      t' := t;
      LaterSame(t, id, true);
    } else {
      GoingReady(Now(t), id);
      var t1 := Serve(t, id);
      Basics(Now(t1));
      CallIsOk(Now(t), id);
      AsClean(Now(t).pool, c, Now(t1).pool, |Now(t).queues[U].log| < Now(t).qd, clean);
      WroteOne(Now(t).pool, id, Now(t1).pool, clean);
      WroteFields(Now(t).pool, id, Now(t1).pool, clean);
      MovedFields(Now(t).pool, id, Now(t1).pool);
      if Now(t1).pool.calls[id].issued < c.len {
        GoingOn(Now(t), id, Now(t1), clean);
        t' := WriteOn(t1, id, all, clean);
        WroteMore(Now(t).pool, id, Now(t1).pool, Now(t').pool, clean);
        WroteFields(Now(t1).pool, id, Now(t').pool, clean);
        LaterStill(t, t1, t', id, true);
      } else {
        t' := t1;
      }
    }
  }
}
