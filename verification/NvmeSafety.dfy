/** What clients of a queue pair can rely on over whole runs. */
module NvmeSafety {
  import opened Memory
  import opened Modular
  import opened NvmeQueue
  import opened Sizes

  /** `done(cid)` for the slot of request k, which may have gone on to serve later requests. */
  predicate Polled(q: Queue, k: nat)
    requires k < |q.log| && q.log[k].cid < |q.slots|
  {
    q.slots[q.log[k].cid].flag == 1
  }

  /**
   * Polling is sound under slot reuse: a flag of 1 in the slot a request was given means that this very
   * request was consumed, however many later requests have used the slot. For the slot's latest request
   * the flag is exact.
   */
  lemma PollSound(q: Queue, k: nat)
    requires Inv(q) && k < |q.log|
    ensures q.log[k].cid < |q.slots|
    ensures Polled(q, k) ==> q.log[k].stage.Consumed?
    ensures q.slots[q.log[k].cid].owner == k ==> (Polled(q, k) <==> q.log[k].stage.Consumed?)
  {
    assert SlotOk(q.log[k].cid, q.slots[q.log[k].cid], q.log);
  }

  /** `new_sqe` never hands out the slot of a request in flight; slots go round robin. */
  lemma SubmitTakesFreeSlot(q: Queue, r: Req, k: nat)
    requires Inv(q) && Enabled(q, Submit(r)) && k < |q.log| && InFlight(q.log[k])
    ensures q.log[k].cid != q.sqTail == Slot(|q.log|, q.n)
  {
    assert SlotOk(q.sqTail, q.slots[q.sqTail], q.log);
  }

  /**
   * While request k is in flight no step touches its submission entry, its buffer pointer, its length or
   * its bounce buffer, except the device's own transfer for k.
   */
  lemma InFlightUntouched(w: World, e: Event, k: nat)
    requires Inv(w.q) && Enabled(w.q, e) && k < |w.q.log| && InFlight(w.q.log[k])
    ensures var q, q' := w.q, Apply(w, e).q;
            && k < |q'.log| && q'.log[k].cid == q.log[k].cid && q'.log[k].req == q.log[k].req
            && (InFlight(q'.log[k]) ==>
                  && q.log[k].cid < |q.slots| == |q'.slots|
                  && var s, s' := q.slots[q.log[k].cid], q'.slots[q.log[k].cid];
                  && s'.sqe == s.sqe && s'.rbuf == s.rbuf && s'.len == s.len && s'.owner == s.owner == k
                  && (e != Execute(k) ==> s'.bounce == s.bounce))
  {
    match e
    case Submit(r) => SubmitTakesFreeSlot(w.q, r, k);
    case Fetch => FetchSees(w.q);
    case Execute(j) => RunsOwn(w.q, j);
    case Post(j) =>
    case Consume => HeadEntry(w.q);
  }

  // ---- the life of one request ----------------------------------------------------------

  function Rank(s: Stage): nat {
    match s
    case Queued => 0
    case Fetched(_) => 1
    case Executed(_, _) => 2
    case Posted(_, _) => 3
    case Consumed(_, _) => 4
  }

  /** The step in which the host consumes request k. */
  ghost predicate Consumes(q: Queue, e: Event, k: nat)
    requires Inv(q) && Enabled(q, e)
  {
    e.Consume? && (HeadEntry(q); q.posted[q.consumed] == k)
  }

  /** From s to s' a request has gone at most one stage further, and what was transferred for it is the same. */
  predicate Advances(s: Entry, s': Entry) {
    && (Rank(s'.stage) == Rank(s.stage) ==> s'.stage == s.stage)
    && Rank(s.stage) <= Rank(s'.stage) <= Rank(s.stage) + 1
    && (Rank(s.stage) >= 2 && Rank(s'.stage) >= 2 ==> s'.stage.data == s.stage.data)
    && s'.req == s.req
  }

  lemma FetchAdvances(q: Queue, k: nat)
    requires Inv(q) && Enabled(q, Fetch) && k < |q.log|
    ensures q.fetched < |q.log| && k < |DoFetch(q).log| && Advances(q.log[k], DoFetch(q).log[k])
    ensures Rank(q.log[k].stage) == 0 || DoFetch(q).log[k] == q.log[k]
  {
    FetchSees(q);
  }

  lemma ExecuteAdvances(q: Queue, j: nat, disk: Store, k: nat)
    requires Inv(q) && Enabled(q, Execute(j)) && k < |q.log|
    ensures k < |DoExecute(q, j, disk).log| && Advances(q.log[k], DoExecute(q, j, disk).log[k])
    ensures if k == j then Rank(q.log[k].stage) == 1 && Rank(DoExecute(q, j, disk).log[k].stage) == 2 else DoExecute(q, j, disk).log[k] == q.log[k]
  {
  }

  lemma PostAdvances(q: Queue, j: nat, k: nat)
    requires Inv(q) && Enabled(q, Post(j)) && k < |q.log|
    ensures k < |DoPost(q, j).log| && Advances(q.log[k], DoPost(q, j).log[k])
    ensures Rank(q.log[k].stage) == 2 || DoPost(q, j).log[k] == q.log[k]
  {
  }

  lemma ConsumeAdvances(q: Queue, k: nat)
    requires Inv(q) && Enabled(q, Consume) && k < |q.log|
    ensures q.consumed < |q.posted| && k < |DoConsume(q).log| && Advances(q.log[k], DoConsume(q).log[k])
    ensures if k == q.posted[q.consumed] then Rank(q.log[k].stage) == 3 && Rank(DoConsume(q).log[k].stage) == 4 else DoConsume(q).log[k] == q.log[k]
  {
    HeadEntry(q);
  }

  /** Every step takes a request at most one stage further, and only the steps named for it do. */
  lemma StageStep(w: World, e: Event, k: nat)
    requires Inv(w.q) && Enabled(w.q, e) && k < |w.q.log|
    ensures k < |Apply(w, e).q.log|
    ensures var s, s' := w.q.log[k].stage, Apply(w, e).q.log[k].stage;
            && (Rank(s') == Rank(s) ==> s' == s)
            && Rank(s) <= Rank(s') <= Rank(s) + 1
            && (Rank(s) == 1 && Rank(s') == 2 <==> e == Execute(k))
            && (Rank(s) == 3 && Rank(s') == 4 <==> Consumes(w.q, e, k))
            && (Rank(s) >= 2 && Rank(s') >= 2 ==> s'.data == s.data)
            && Apply(w, e).q.log[k].req == w.q.log[k].req
  {
    hide Inv, DoFetch, DoExecute, DoPost, DoConsume, Enabled, ConsumedMem, ExecutedDisk;
    match e
    case Submit(r) =>
    case Fetch => FetchAdvances(w.q, k);
    case Execute(j) => ExecuteAdvances(w.q, j, w.disk, k);
    case Post(j) => PostAdvances(w.q, j, k);
    case Consume => ConsumeAdvances(w.q, k);
  }

  /** A read transfers what the drive held; a write puts the submitted bytes on the drive. */
  lemma ExecuteTransfers(w: World, k: nat)
    requires Inv(w.q) && Enabled(w.q, Execute(k))
    ensures var r, w' := w.q.log[k].req, Apply(w, Execute(k));
            && (r.op.Read? ==>
                  && w'.disk == w.disk
                  && w'.q.log[k].stage.data == Get(w.disk, SECTOR * r.lba, SECTOR * r.nblk))
            && (r.op.Write? ==>
                  && |w'.q.log[k].stage.data| == SECTOR * r.nblk
                  && r.data <= w'.q.log[k].stage.data
                  && w'.disk == Put(w.disk, SECTOR * r.lba, w'.q.log[k].stage.data))
  {
    RunsOwn(w.q, k);
  }

  /** Consuming a read copies the bytes the device transferred for it into its own buffer, nothing else. */
  lemma ConsumeDelivers(w: World, k: nat)
    requires Inv(w.q) && Enabled(w.q, Consume) && Consumes(w.q, Consume, k)
    ensures k < |w.q.log| && w.q.log[k].stage.Posted?
    ensures var e := w.q.log[k];
            && |e.stage.data| >= LenOf(e.req)
            && Apply(w, Consume).mem ==
                 if e.req.op.Read? then Put(w.mem, e.req.buf, e.stage.data[..e.req.len]) else w.mem
  {
    HeadEntry(w.q);
    var e := w.q.log[k];
    assert StageOk(k, e, w.q.n, w.q.fetched, w.q.posted, w.q.consumed);
    if e.req.op.Read? {
      assert ValidReq(e.req);
      var s := w.q.slots[e.cid];
      assert s.bounce[..e.req.len] == e.stage.data[..e.req.len];
    }
  }

  /** Stages only ever advance; what was transferred for a request never changes afterwards. */
  lemma {:induction false} StagesAdvance(ws: seq<World>, es: seq<Event>, k: nat, i: nat, j: nat)
    requires Behavior(ws, es) && i <= j <= |es| && k < |ws[i].q.log|
    ensures k < |ws[j].q.log| && ws[j].q.log[k].req == ws[i].q.log[k].req
    ensures Rank(ws[i].q.log[k].stage) <= Rank(ws[j].q.log[k].stage)
    ensures Rank(ws[i].q.log[k].stage) >= 2 ==> ws[j].q.log[k].stage.data == ws[i].q.log[k].stage.data
    decreases j - i
  {
    if i < j {
      BehaviorInv(ws, es, i);
      StageStep(ws[i], es[i], k);
      StagesAdvance(ws, es, k, i + 1, j);
    }
  }

  /** The step at which request k passed from stage r to stage r + 1. */
  lemma {:induction false} Crossing(ws: seq<World>, es: seq<Event>, k: nat, r: nat, i: nat, j: nat) returns (m: nat)
    requires Behavior(ws, es) && i <= j <= |es| && k < |ws[i].q.log| && k < |ws[j].q.log|
    requires Rank(ws[i].q.log[k].stage) <= r < Rank(ws[j].q.log[k].stage)
    ensures i <= m < j && k < |ws[m].q.log| && k < |ws[m + 1].q.log|
    ensures Rank(ws[m].q.log[k].stage) == r && Rank(ws[m + 1].q.log[k].stage) == r + 1
    decreases j - i
  {
    BehaviorInv(ws, es, i);
    StageStep(ws[i], es[i], k);
    if Rank(ws[i + 1].q.log[k].stage) > r {
      m := i;
    } else {
      m := Crossing(ws, es, k, r, i + 1, j);
    }
  }

  /** A request is executed at most once in a behaviour. */
  lemma ExecutedOnce(ws: seq<World>, es: seq<Event>, k: nat, i: nat, j: nat)
    requires Behavior(ws, es) && i <= j < |es| && es[i] == es[j] == Execute(k)
    ensures i == j
  {
    BehaviorInv(ws, es, i);
    BehaviorInv(ws, es, j);
    if i < j {
      StageStep(ws[i], es[i], k);
      StagesAdvance(ws, es, k, i + 1, j);
    }
  }

  /** The driver consumes completions once each and in the order of posting. */
  lemma ConsumedInOrder(ws: seq<World>, es: seq<Event>, i: nat)
    requires Behavior(ws, es) && i <= |es|
    ensures ws[i].q.consumed <= |ws[i].q.posted|
    ensures forall a {:trigger ws[i].q.posted[a]} :: 0 <= a < |ws[i].q.posted| ==>
              && ws[i].q.posted[a] < |ws[i].q.log|
              && (ws[i].q.log[ws[i].q.posted[a]].stage.Consumed? <==> a < ws[i].q.consumed)
    ensures forall a, b :: 0 <= a < b < |ws[i].q.posted| ==> ws[i].q.posted[a] != ws[i].q.posted[b]
  {
    BehaviorInv(ws, es, i);
    var q := ws[i].q;
    forall a | 0 <= a < |q.posted|
      ensures q.posted[a] < |q.log| && (q.log[q.posted[a]].stage.Consumed? <==> a < q.consumed)
    {
      assert StageOk(q.posted[a], q.log[q.posted[a]], q.n, q.fetched, q.posted, q.consumed);
    }
    forall a, b | 0 <= a < b < |q.posted| ensures q.posted[a] != q.posted[b] {
      assert q.log[q.posted[a]].stage.at == a && q.log[q.posted[b]].stage.at == b;
    }
  }

  /**
   * The life of a request. If polling reports request k done at the end of a behaviour that began with k
   * just submitted, the device executed k at exactly one step i and the host consumed it at a later step j.
   * A read's own buffer, and nothing else, then received the bytes its range of the drive held at step i; a
   * write's bytes were on the drive right after step i. No completion order and no reuse of the slot by
   * later requests changes this.
   */
  lemma RequestLife(ws: seq<World>, es: seq<Event>, k: nat) returns (i: nat, j: nat)
    requires Behavior(ws, es) && k < |ws[0].q.log| && ws[0].q.log[k].stage.Queued?
    requires k < |ws[|es|].q.log| && ws[|es|].q.log[k].cid < |ws[|es|].q.slots| && Polled(ws[|es|].q, k)
    ensures i < j < |es|
    ensures es[i] == Execute(k) && forall m :: 0 <= m < |es| && es[m] == Execute(k) ==> m == i
    ensures Inv(ws[j].q) && Enabled(ws[j].q, es[j]) && Consumes(ws[j].q, es[j], k)
    ensures var r := ws[0].q.log[k].req;
            if r.op.Read? then
              ws[j + 1].mem == Put(ws[j].mem, r.buf, Get(ws[i].disk, SECTOR * r.lba, r.len))
            else
              && ws[j + 1].mem == ws[j].mem
              && Get(ws[i + 1].disk, SECTOR * r.lba, r.len) == r.data
  {
    BehaviorInv(ws, es, |es|);
    PollSound(ws[|es|].q, k);
    i := Crossing(ws, es, k, 1, 0, |es|);
    j := Crossing(ws, es, k, 3, i + 1, |es|);
    BehaviorInv(ws, es, i);
    BehaviorInv(ws, es, j);
    StageStep(ws[i], es[i], k);
    StageStep(ws[j], es[j], k);
    forall m | 0 <= m < |es| && es[m] == Execute(k) ensures m == i {
      if m <= i { ExecutedOnce(ws, es, k, m, i); } else { ExecutedOnce(ws, es, k, i, m); }
    }
    StagesAdvance(ws, es, k, 0, i);
    StagesAdvance(ws, es, k, i + 1, j);
    Delivery(ws[i], ws[j], k);
  }

  /** What executing k at `u` and consuming it at `v` amount to together. */
  lemma Delivery(u: World, v: World, k: nat)
    requires Inv(u.q) && Enabled(u.q, Execute(k)) && Inv(v.q) && Enabled(v.q, Consume) && Consumes(v.q, Consume, k)
    requires k < |v.q.log| && v.q.log[k].req == u.q.log[k].req
    requires var d := Apply(u, Execute(k)).q.log[k].stage; v.q.log[k].stage.Posted? && v.q.log[k].stage.data == d.data
    ensures var r := u.q.log[k].req;
            if r.op.Read? then
              Apply(v, Consume).mem == Put(v.mem, r.buf, Get(u.disk, SECTOR * r.lba, r.len))
            else
              && Apply(v, Consume).mem == v.mem
              && Get(Apply(u, Execute(k)).disk, SECTOR * r.lba, r.len) == r.data
  {
    RunsOwn(u.q, k);
    ExecuteTransfers(u, k);
    ConsumeDelivers(v, k);
    var r := u.q.log[k].req;
    if r.op.Read? {
      assert Get(u.disk, SECTOR * r.lba, SECTOR * r.nblk)[..r.len] == Get(u.disk, SECTOR * r.lba, r.len);
    }
  }

  /** Two requests in flight never share a slot. */
  lemma OneRequestPerSlot(q: Queue, j: nat, k: nat)
    requires Inv(q) && j < |q.log| && k < |q.log| && InFlight(q.log[j]) && InFlight(q.log[k])
    requires q.log[j].cid == q.log[k].cid
    ensures j == k
  {
    assert q.slots[q.log[j].cid].owner == j && q.slots[q.log[k].cid].owner == k;
  }

  // ---- what a write of part of a sector puts on the drive -----------------------------------

  /** Until a command runs its bounce buffer stays as it was at submission, whatever else happens. */
  lemma {:induction false} BounceKept(ws: seq<World>, es: seq<Event>, k: nat, i: nat, j: nat)
    requires Behavior(ws, es) && i <= j <= |es| && k < |ws[i].q.log| && k < |ws[j].q.log| && Rank(ws[j].q.log[k].stage) <= 1
    ensures ws[j].q.log[k].cid == ws[i].q.log[k].cid < |ws[i].q.slots| == |ws[j].q.slots|
    ensures ws[j].q.slots[ws[j].q.log[k].cid].bounce == ws[i].q.slots[ws[i].q.log[k].cid].bounce
    decreases j - i
  {
    BehaviorInv(ws, es, i);
    if i < j {
      StageStep(ws[i], es[i], k);
      StagesAdvance(ws, es, k, i + 1, j);
      InFlightUntouched(ws[i], es[i], k);
      BounceKept(ws, es, k, i + 1, j);
    } else {
      assert StageOk(k, ws[i].q.log[k], ws[i].q.n, ws[i].q.fetched, ws[i].q.posted, ws[i].q.consumed);
    }
  }

  lemma SubmittedBounce(w: World, r: Req)
    requires Inv(w.q) && Enabled(w.q, Submit(r)) && r.op.Write?
    ensures var q, k := Apply(w, Submit(r)).q, |w.q.log|;
            && |q.log| == k + 1 && q.log[k] == Entry(r, w.q.sqTail, Queued) && w.q.sqTail < |w.q.slots| == |q.slots|
            && r.len <= SECTOR * r.nblk <= |w.q.slots[w.q.sqTail].bounce|
            && q.slots[w.q.sqTail].bounce == r.data + w.q.slots[w.q.sqTail].bounce[r.len..]
  {
    assert SlotOk(w.q.sqTail, w.q.slots[w.q.sqTail], w.q.log);
  }

  /** A write transfers the front of its slot's bounce buffer. */
  lemma WriteTransfers(w: World, k: nat)
    requires Inv(w.q) && Enabled(w.q, Execute(k)) && w.q.log[k].req.op.Write?
    ensures var e := w.q.log[k];
            && e.cid < |w.q.slots| && SECTOR * e.req.nblk <= |w.q.slots[e.cid].bounce|
            && Apply(w, Execute(k)).disk == Put(w.disk, SECTOR * e.req.lba, w.q.slots[e.cid].bounce[..SECTOR * e.req.nblk])
  {
    RunsOwn(w.q, k);
  }

  lemma TailOf(u: World, v: World, r: Req)
    requires Inv(u.q) && Enabled(u.q, Submit(r)) && r.op.Write? && u.q.sqTail < |u.q.slots| == |v.q.slots|
    requires var k := |u.q.log|; Inv(v.q) && Enabled(v.q, Execute(k)) && v.q.log[k].req == r && v.q.log[k].cid == u.q.sqTail
    requires v.q.slots[u.q.sqTail].bounce == Apply(u, Submit(r)).q.slots[u.q.sqTail].bounce
    ensures r.len <= SECTOR * r.nblk <= |u.q.slots[u.q.sqTail].bounce|
    ensures Apply(v, Execute(|u.q.log|)).disk == Put(v.disk, SECTOR * r.lba, r.data + u.q.slots[u.q.sqTail].bounce[r.len..SECTOR * r.nblk])
  {
    SubmittedBounce(u, r);
    WriteTransfers(v, |u.q.log|);
    var b := u.q.slots[u.q.sqTail].bounce;
    assert (r.data + b[r.len..])[..SECTOR * r.nblk] == r.data + b[r.len..SECTOR * r.nblk];
  }

  /**
   * A write of a length that does not fill its last sector puts the bytes written on the drive and, behind
   * them, whatever the slot's bounce buffer held when the request was submitted.
   */
  lemma StaleTail(ws: seq<World>, es: seq<Event>, r: Req, j: nat)
    requires Behavior(ws, es) && 0 < j < |es| && es[0] == Submit(r) && r.op.Write? && es[j] == Execute(|ws[0].q.log|)
    ensures ws[0].q.sqTail < |ws[0].q.slots| && r.len <= SECTOR * r.nblk <= |ws[0].q.slots[ws[0].q.sqTail].bounce|
    ensures ws[j + 1].disk == Put(ws[j].disk, SECTOR * r.lba, r.data + ws[0].q.slots[ws[0].q.sqTail].bounce[r.len..SECTOR * r.nblk])
  {
    var k := |ws[0].q.log|;
    BehaviorInv(ws, es, 0);
    SubmittedBounce(ws[0], r);
    BehaviorInv(ws, es, j);
    StagesAdvance(ws, es, k, 1, j);
    BounceKept(ws, es, k, 1, j);
    TailOf(ws[0], ws[j], r);
  }

  // ---- the full submission ring ---------------------------------------------------------

  /**
   * The driver lets n commands wait, one more than a ring of n entries can show. The device sees exactly
   * the waiting commands when at most n - 1 wait; with n of them it sees an empty ring.
   */
  lemma DeviceSeesWaiting(q: Queue)
    requires Inv(q)
    ensures |q.log| - q.fetched <= q.n
    ensures Enabled(q, Fetch) <==> 0 < |q.log| - q.fetched < q.n
  {
    var t, f, n := |q.log|, q.fetched, q.n;
    if t - f > n {
      SlotRepeats(f, n);
      OneRequestPerSlot(q, f, f + n);
    }
    if f < t < f + n {
      SlotDistinct(f, t, n);
    } else if t == f + n {
      SlotRepeats(f, n);
    }
  }

  /** Nothing can move: the client's next request finds its slot busy and neither side has a step. */
  ghost predicate Deadlocked(q: Queue)
    requires Inv(q)
  {
    forall e: Event :: !Enabled(q, e)
  }

  /**
   * The queue pair deadlocks exactly when n submitted commands wait unfetched: the device then sees an
   * empty ring while `new_sqe` waits for a completion of one of them. One empty slot would rule it out.
   */
  lemma DeadlockIffRingFull(q: Queue)
    requires Inv(q)
    ensures Deadlocked(q) <==> |q.log| - q.fetched == q.n
  {
    DeviceSeesWaiting(q);
    if |q.log| - q.fetched == q.n {
      forall e: Event ensures !Enabled(q, e) {
        FullRingStops(q, e);
      }
    } else {
      NotFullMoves(q);
    }
  }

  lemma FullRingStops(q: Queue, e: Event)
    requires Inv(q) && |q.log| - q.fetched == q.n
    ensures !Enabled(q, e)
  {
    DeviceSeesWaiting(q);
    match e
    case Submit(r) =>
      SlotRepeats(q.fetched, q.n);
      assert q.log[q.fetched].cid == q.sqTail;
      assert SlotOk(q.sqTail, q.slots[q.sqTail], q.log);
    case Fetch =>
    case Execute(k) =>
      if k < q.fetched {
        AllWait(q, k);
      }
    case Post(k) =>
      if k < q.fetched {
        AllWait(q, k);
      }
    case Consume =>
      PhaseTagExact(q);
      if q.consumed < |q.posted| {
        AllWait(q, q.posted[q.consumed]);
      }
  }

  /** With n commands waiting every slot is taken by one of them, so every other request is over. */
  lemma AllWait(q: Queue, k: nat)
    requires Inv(q) && |q.log| - q.fetched == q.n && k < q.fetched
    ensures q.log[k].stage.Consumed?
  {
    var j := SlotCover(q.fetched, q.log[k].cid, q.n);
    assert InFlight(q.log[j]) && q.slots[q.log[j].cid].owner == j;
  }

  /** Otherwise the latest request of the slot at the tail, or else a new request, has a step. */
  lemma NotFullMoves(q: Queue)
    requires Inv(q) && |q.log| - q.fetched < q.n
    ensures exists e: Event :: Enabled(q, e)
  {
    DeviceSeesWaiting(q);
    PhaseTagExact(q);
    var s := q.slots[q.sqTail];
    assert SlotOk(q.sqTail, s, q.log);
    if s.flag != 0 {
      assert Enabled(q, Submit(Req(Write, 0, 1, 0, NULL, [])));
    } else {
      var k := s.owner;
      assert StageOk(k, q.log[k], q.n, q.fetched, q.posted, q.consumed);
      match q.log[k].stage
      case Queued => assert Enabled(q, Fetch);
      case Fetched(_) => assert Enabled(q, Execute(k));
      case Executed(_, _) => assert Enabled(q, Post(k));
      case Posted(_, _) => assert Enabled(q, Consume);
    }
  }

  /** A slot never used is free. */
  lemma FreeSlot(q: Queue)
    requires Inv(q) && |q.log| < q.n
    ensures q.sqTail == |q.log| && q.slots[q.sqTail].flag != 0
  {
    SlotSmall(|q.log|, q.n);
    var s := q.slots[q.sqTail];
    assert SlotOk(q.sqTail, s, q.log);
    if s.owner >= 0 {
      SlotSmall(s.owner, q.n);
    }
  }

  /** The next request of a burst. */
  lemma BurstStep(w: World, r: Req)
    requires Inv(w.q) && w.q.fetched == 0 && w.q.posted == [] && |w.q.log| < w.q.n && ValidReq(r)
    ensures Enabled(w.q, Submit(r)) && Inv(Apply(w, Submit(r)).q)
    ensures var q := Apply(w, Submit(r)).q; q.n == w.q.n && |q.log| == |w.q.log| + 1 && q.fetched == 0 && q.posted == []
  {
    FreeSlot(w.q);
    ApplyInv(w, Submit(r));
  }

  /** And the full ring is reachable: n submissions in a row, before the device fetches any, end there. */
  lemma {:induction false} BurstDeadlocks(w: World, r: Req, k: nat) returns (ws: seq<World>, es: seq<Event>)
    requires Init(w.q, w.q.n) && ValidReq(r) && k <= w.q.n
    ensures Behavior(ws, es) && ws[0] == w && |es| == k && ws[k].q.n == w.q.n
    ensures |ws[k].q.log| == k && ws[k].q.fetched == 0 && ws[k].q.posted == []
    ensures Inv(ws[k].q)
    ensures k == w.q.n ==> Deadlocked(ws[k].q)
    decreases k
  {
    hide Inv, Enabled, Apply;
    InitInv(w.q, w.q.n);
    if k == 0 {
      ws, es := [w], [];
    } else {
      ws, es := BurstDeadlocks(w, r, k - 1);
      BurstStep(ws[k - 1], r);
      ws, es := ws + [Apply(ws[k - 1], Submit(r))], es + [Submit(r)];
    }
    if k == w.q.n {
      DeadlockIffRingFull(ws[k].q);
    }
  }

  // ---- what each step shows to the outside ----------------------------------------------

  /** The device carried out request k between w and w'. */
  ghost predicate ExecutedIn(w: World, k: nat, w': World) {
    && k < |w.q.log| && w.q.log[k].stage.Fetched?
    && var r, c := w.q.log[k].req, w.q.log[k].stage.sqe;
    && w'.mem == w.mem && |w'.q.log| == |w.q.log| && w'.q.log[k].stage.Executed?
    && var d := w'.q.log[k].stage.data;
    && w'.q.log == w.q.log[k := w.q.log[k].(stage := Executed(c, d))]
    && if r.op.Read? then w'.disk == w.disk && d == Get(w.disk, SECTOR * r.lba, SECTOR * r.nblk)
       else |d| == SECTOR * r.nblk && r.data <= d && w'.disk == Put(w.disk, SECTOR * r.lba, d)
  }

  lemma ExecuteEffect(w: World, k: nat)
    requires Inv(w.q) && Enabled(w.q, Execute(k))
    ensures ExecutedIn(w, k, Apply(w, Execute(k)))
  {
    ExecuteTransfers(w, k);
  }

  /** Request k was fetched or posted; nobody outside the queue pair can tell. */
  ghost predicate MovedIn(w: World, k: nat, w': World) {
    && k < |w.q.log| == |w'.q.log| && w'.mem == w.mem && w'.disk == w.disk
    && w'.q.log == w.q.log[k := w'.q.log[k]]
    && w'.q.log[k].req == w.q.log[k].req && w'.q.log[k].cid == w.q.log[k].cid
    && var s, s' := w.q.log[k].stage, w'.q.log[k].stage;
    && ((s.Queued? && s'.Fetched?) || (s.Executed? && s'.Posted? && s'.data == s.data))
  }

  lemma QuietEffect(w: World, e: Event) returns (k: nat)
    requires Inv(w.q) && Enabled(w.q, e) && (e.Fetch? || e.Post?)
    ensures MovedIn(w, k, Apply(w, e))
  {
    if e.Fetch? {
      FetchSees(w.q);
      k := w.q.fetched;
    } else {
      k := e.k;
    }
  }

  /** The host consumed request k. */
  ghost predicate ConsumedIn(w: World, k: nat, w': World) {
    && k < |w.q.log| == |w'.q.log| && w.q.log[k].stage.Posted? && w'.q.log[k].stage.Consumed?
    && w'.disk == w.disk
    && w'.q.log == w.q.log[k := w'.q.log[k]] && w'.q.log[k].cid == w.q.log[k].cid
    && var e := w.q.log[k];
    && LenOf(e.req) <= |e.stage.data|
    && w'.mem == if e.req.op.Read? then Put(w.mem, e.req.buf, e.stage.data[..e.req.len]) else w.mem
  }

  lemma ConsumeEffect(w: World)
    requires Inv(w.q) && Enabled(w.q, Consume)
    ensures w.q.consumed < |w.q.posted| && ConsumedIn(w, w.q.posted[w.q.consumed], Apply(w, Consume))
  {
    HeadEntry(w.q);
    ConsumeDelivers(w, w.q.posted[w.q.consumed]);
  }

  // ---- progress -------------------------------------------------------------------------

  /** How many steps the requests still have before them. */
  function Owing(log: seq<Entry>): nat {
    if log == [] then 0 else Owing(log[..|log| - 1]) + 4 - Rank(log[|log| - 1].stage)
  }

  lemma {:induction false} OwingUpdate(log: seq<Entry>, k: nat, e: Entry)
    requires k < |log|
    ensures Owing(log[k := e]) + Rank(e.stage) == Owing(log) + Rank(log[k].stage)
  {
    var n := |log| - 1;
    if k < n {
      OwingUpdate(log[..n], k, e);
      assert log[k := e][..n] == log[..n][k := e];
    } else {
      assert log[k := e][..n] == log[..n];
    }
  }

  lemma {:induction false} OwingNothing(log: seq<Entry>)
    requires forall k {:trigger log[k]} :: 0 <= k < |log| ==> log[k].stage.Consumed?
    ensures Owing(log) == 0
  {
    if log != [] {
      OwingNothing(log[..|log| - 1]);
    }
  }

  /** A step other than a submission takes one request one stage further. */
  lemma OneAdvances(w: World, e: Event) returns (k: nat)
    requires Inv(w.q) && Enabled(w.q, e) && !e.Submit?
    ensures var log, log' := w.q.log, Apply(w, e).q.log;
            k < |log| == |log'| && log' == log[k := log'[k]] && Rank(log'[k].stage) == Rank(log[k].stage) + 1
    ensures Apply(w, e).q.n == w.q.n && Apply(w, e).q.fetched >= w.q.fetched
  {
    hide Inv, Shape, SlotsOk, DeviceOk, RingOk;
    match e
    case Execute(j) =>
      k := j;
      ExecuteEffect(w, k);
    case Consume =>
      ConsumeEffect(w);
      k := w.q.posted[w.q.consumed];
    case _ => k := QuietEffect(w, e);
  }

  /** As long as fewer than n commands wait unfetched, whatever is in flight has a step that needs no submission. */
  lemma InFlightMoves(q: Queue, k: nat) returns (e: Event)
    requires Inv(q) && |q.log| - q.fetched < q.n && k < |q.log| && InFlight(q.log[k])
    ensures !e.Submit? && Enabled(q, e)
  {
    DeviceSeesWaiting(q);
    PhaseTagExact(q);
    assert StageOk(k, q.log[k], q.n, q.fetched, q.posted, q.consumed);
    match q.log[k].stage
    case Queued => e := Fetch;
    case Fetched(_) => e := Execute(k);
    case Executed(_, _) => e := Post(k);
    case Posted(_, _) => e := Consume;
  }

  ghost predicate AllOver(q: Queue) {
    forall k {:trigger q.log[k]} :: 0 <= k < |q.log| ==> q.log[k].stage.Consumed?
  }

  /** Nothing can move without a new submission. */
  ghost predicate AtRest(q: Queue)
    requires Inv(q)
  {
    forall e: Event {:trigger Enabled(q, e)} :: Enabled(q, e) ==> e.Submit?
  }

  lemma RestIffOver(w: World)
    requires Inv(w.q) && |w.q.log| - w.q.fetched < w.q.n
    ensures AtRest(w.q) <==> AllOver(w.q)
  {
    hide Shape, SlotsOk, DeviceOk, RingOk, Apply;
    if AllOver(w.q) {
      forall e: Event | Enabled(w.q, e) ensures e.Submit? {
        if !e.Submit? {
          var k := OneAdvances(w, e);
        }
      }
    } else {
      var k: nat :| k < |w.q.log| && !w.q.log[k].stage.Consumed?;
      var e := InFlightMoves(w.q, k);
    }
  }

  /**
   * Progress. Unless n commands wait unfetched at its start, a run without submissions takes exactly as many steps
   * as the requests have advanced in it, so at most four for each; and it can go on as long as any request
   * is in flight: it is at rest exactly when every request has been consumed, after as many steps as were owed.
   */
  lemma {:induction false} Progress(ws: seq<World>, es: seq<Event>, j: nat)
    requires Behavior(ws, es) && forall i {:trigger es[i]} :: 0 <= i < |es| ==> !es[i].Submit?
    requires j <= |es| && |ws[0].q.log| - ws[0].q.fetched < ws[0].q.n
    ensures Inv(ws[j].q) && j + Owing(ws[j].q.log) == Owing(ws[0].q.log)
    ensures |ws[j].q.log| == |ws[0].q.log| && |ws[j].q.log| - ws[j].q.fetched < ws[j].q.n
    ensures AtRest(ws[j].q) <==> AllOver(ws[j].q)
    ensures AllOver(ws[j].q) ==> j == Owing(ws[0].q.log)
  {
    hide Inv, Apply, Enabled, AtRest;
    BehaviorInv(ws, es, j);
    if j > 0 {
      Progress(ws, es, j - 1);
      BehaviorInv(ws, es, j - 1);
      var k := OneAdvances(ws[j - 1], es[j - 1]);
      OwingUpdate(ws[j - 1].q.log, k, ws[j].q.log[k]);
    }
    RestIffOver(ws[j]);
    if AllOver(ws[j].q) {
      OwingNothing(ws[j].q.log);
    }
  }
}
