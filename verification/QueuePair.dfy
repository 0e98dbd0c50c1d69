/** The polling driver of one queue pair, over the memory it shares with the device. */
module QueuePair {
  import opened Memory
  import opened Modular
  import opened NvmeQueue
  import opened Sizes
  import opened NvmeSafety
  import opened Wrappers

  // ---- what the driver's loops amount to ------------------------------------------------

  /** `check_cq` left to itself: consume until the phase no longer matches. */
  ghost function Drain(w: World): (w': World)
    requires Inv(w.q)
    ensures Inv(w'.q) && w'.disk == w.disk && w'.q.n == w.q.n
    ensures w'.q.posted == w.q.posted && w'.q.consumed == |w.q.posted|
    ensures !PhaseMatches(w'.q)
    decreases |w.q.posted| - w.q.consumed
  {
    PhaseTagExact(w.q);
    if PhaseMatches(w.q) then
      ApplyInv(w, Consume);
      Drain(Apply(w, Consume))
    else w
  }

  /** What the device does while the driver is between two polls: any of its steps, in any order. */
  ghost function DeviceTurn(w: World, es: seq<Event>): (w': World)
    requires Inv(w.q)
    ensures Inv(w'.q) && w'.q.n == w.q.n
    decreases |es|
  {
    if es == [] then w
    else if !es[0].Submit? && !es[0].Consume? && Enabled(w.q, es[0]) then
      ApplyInv(w, es[0]);
      DeviceTurn(Apply(w, es[0]), es[1..])
    else DeviceTurn(w, es[1..])
  }

  /** The wait in `new_sqe`: poll until the slot at the tail is free, or as long as `turns` lasts. */
  ghost function Spin(w: World, turns: seq<seq<Event>>): (w': World)
    requires Inv(w.q)
    ensures Inv(w'.q) && w'.q.n == w.q.n
    decreases |turns|
  {
    if turns == [] || w.q.slots[w.q.sqTail].flag != 0 then w
    else Spin(Drain(DeviceTurn(w, turns[0])), turns[1..])
  }

  /**
   * How a wait ends: the slot at the tail is free, or every completion that the device has posted has been
   * consumed, or there was no turn at all.
   */
  predicate WaitOver(q: Queue, turns: seq<seq<Event>>)
    requires q.sqTail < |q.slots|
  {
    q.slots[q.sqTail].flag != 0 || turns == [] || q.consumed == |q.posted|
  }

  lemma {:induction false} SpinEnds(w: World, turns: seq<seq<Event>>)
    requires Inv(w.q)
    ensures WaitOver(Spin(w, turns).q, turns) && Spin(w, turns).q.sqTail == w.q.sqTail
    ensures |Spin(w, turns).q.log| == |w.q.log|
    decreases |turns|
  {
    if turns != [] && w.q.slots[w.q.sqTail].flag == 0 {
      var w1 := DeviceTurn(w, turns[0]);
      DeviceTurnKeeps(w, turns[0]);
      DrainKeeps(w1);
      SpinEnds(Drain(w1), turns[1..]);
    }
  }

  lemma {:induction false} DrainKeeps(w: World)
    requires Inv(w.q)
    ensures Drain(w).q.sqTail == w.q.sqTail && |Drain(w).q.log| == |w.q.log|
    decreases |w.q.posted| - w.q.consumed
  {
    PhaseTagExact(w.q);
    if PhaseMatches(w.q) {
      ApplyInv(w, Consume);
      DrainKeeps(Apply(w, Consume));
    }
  }

  lemma {:induction false} DeviceTurnKeeps(w: World, es: seq<Event>)
    requires Inv(w.q)
    ensures DeviceTurn(w, es).q.sqTail == w.q.sqTail && |DeviceTurn(w, es).q.log| == |w.q.log|
    decreases |es|
  {
    if es != [] {
      if !es[0].Submit? && !es[0].Consume? && Enabled(w.q, es[0]) {
        ApplyInv(w, es[0]);
        DeviceTurnKeeps(Apply(w, es[0]), es[1..]);
      } else {
        DeviceTurnKeeps(w, es[1..]);
      }
    }
  }

  /** A slot that is still taken when every completion was consumed is taken by a request not posted yet. */
  lemma BusyNotPosted(q: Queue)
    requires Inv(q) && q.slots[q.sqTail].flag == 0 && q.consumed == |q.posted|
    ensures var o := q.slots[q.sqTail].owner;
            0 <= o < |q.log| && q.log[o].cid == q.sqTail && InFlight(q.log[o]) && !q.log[o].stage.Posted?
  {
    var s := q.slots[q.sqTail];
    assert SlotOk(q.sqTail, s, q.log);
    assert StageOk(s.owner, q.log[s.owner], q.n, q.fetched, q.posted, q.consumed);
  }

  /** Every run of the device's own steps is such activity. */
  lemma {:induction false} DeviceTurnIs(ws: seq<World>, es: seq<Event>)
    requires Behavior(ws, es) && forall i {:trigger es[i]} :: 0 <= i < |es| ==> !es[i].Submit? && !es[i].Consume?
    ensures DeviceTurn(ws[0], es) == ws[|es|]
    decreases |es|
  {
    if es != [] {
      BehaviorInv(ws, es, 0);
      BehaviorInv(ws, es, 1);
      forall i | 0 <= i < |es[1..]| ensures Step(ws[1..][i], es[1..][i], ws[1..][i + 1]) {
        assert Step(ws[i + 1], es[i + 1], ws[i + 2]);
      }
      DeviceTurnIs(ws[1..], es[1..]);
    }
  }

  /** `w'` can be reached from `w` without a new submission. */
  ghost predicate Leads(w: World, w': World) {
    exists ws: seq<World>, es: seq<Event> :: Behavior(ws, es) && ws[0] == w && ws[|es|] == w' && forall i :: 0 <= i < |es| ==> !es[i].Submit?
  }

  lemma LeadsStep(w: World, e: Event, w': World)
    requires Inv(w.q) && Enabled(w.q, e) && !e.Submit? && Leads(Apply(w, e), w')
    ensures Leads(w, w')
  {
    var ws: seq<World>, es: seq<Event> :| Behavior(ws, es) && ws[0] == Apply(w, e) && ws[|es|] == w' && forall i :: 0 <= i < |es| ==> !es[i].Submit?;
    var ws', es' := [w] + ws, [e] + es;
    forall i | 0 <= i < |es'| ensures Step(ws'[i], es'[i], ws'[i + 1]) {
      if i > 0 {
        assert es'[i] == es[i - 1];
      }
    }
    assert Behavior(ws', es') && ws'[0] == w && ws'[|es'|] == w';
  }

  lemma LeadsSelf(w: World)
    requires Inv(w.q)
    ensures Leads(w, w)
  {
    var ws, es: seq<Event> := [w], [];
    assert Behavior(ws, es);
  }

  lemma {:induction false} DrainLeads(w: World, w': World)
    requires Inv(w.q) && Leads(Drain(w), w')
    ensures Leads(w, w')
    decreases |w.q.posted| - w.q.consumed
  {
    PhaseTagExact(w.q);
    if PhaseMatches(w.q) {
      ApplyInv(w, Consume);
      DrainLeads(Apply(w, Consume), w');
      LeadsStep(w, Consume, w');
    }
  }

  lemma {:induction false} DeviceTurnLeads(w: World, es: seq<Event>, w': World)
    requires Inv(w.q) && Leads(DeviceTurn(w, es), w')
    ensures Leads(w, w')
    decreases |es|
  {
    if es != [] {
      if !es[0].Submit? && !es[0].Consume? && Enabled(w.q, es[0]) {
        ApplyInv(w, es[0]);
        DeviceTurnLeads(Apply(w, es[0]), es[1..], w');
        LeadsStep(w, es[0], w');
      } else {
        DeviceTurnLeads(w, es[1..], w');
      }
    }
  }

  /** Waiting and polling are runs of the step machine, so everything proved of its behaviours holds here. */
  lemma {:induction false} SpinLeads(w: World, turns: seq<seq<Event>>)
    requires Inv(w.q)
    ensures Leads(w, Spin(w, turns))
    decreases |turns|
  {
    LeadsSelf(Spin(w, turns));
    if turns != [] && w.q.slots[w.q.sqTail].flag == 0 {
      var w1 := DeviceTurn(w, turns[0]);
      SpinLeads(Drain(w1), turns[1..]);
      DrainLeads(w1, Spin(w, turns));
      DeviceTurnLeads(w, turns[0], Spin(w, turns));
    }
  }

  /** Every request that was given this slot has been consumed. */
  predicate SlotOver(q: Queue, cid: nat) {
    forall k {:trigger q.log[k]} :: 0 <= k < |q.log| && q.log[k].cid == cid ==> q.log[k].stage.Consumed?
  }

  /**
   * The class holds what the C++ object holds: ring positions, the per-slot arrays, the rings and bounce
   * buffers it shares with the device, and the host memory it copies to. `w` is the same queue pair seen
   * whole, with the device and the history; driver code only ever updates it alongside.
   */
  class QP {
    const n: nat
    var sqTail: nat
    var cqHead: nat
    var cqPhase: nat
    const doneFlag: array<nat>
    const rbuf: array<int>
    const len: array<nat>
    const sqes: array<Sqe>
    const cqes: array<Cqe>
    const buf4k: array<seq<byte>>
    var doorbell: nat
    var cqDoorbell: nat
    var mem: Store
    var w: World

    ghost predicate Arrays()
    {
      && doneFlag.Length == rbuf.Length == len.Length == sqes.Length == cqes.Length == buf4k.Length == n
      && doneFlag != len
    }

    /** The arrays and variables are the driver's part of `w`. */
    ghost predicate Valid()
      reads this, doneFlag, rbuf, len, sqes, cqes, buf4k
    {
      && Arrays()
      && Inv(w.q)
      && w.q.n == n && w.q.sqTail == sqTail && w.q.doorbell == doorbell
      && w.q.cqHead == cqHead && w.q.cqPhase == cqPhase && w.mem == mem
      && w.q.cqes == cqes[..]
      && forall i {:trigger w.q.slots[i]} :: 0 <= i < n ==>
           w.q.slots[i] == SlotState(doneFlag[i], rbuf[i], len[i], sqes[i], buf4k[i], w.q.slots[i].owner)
    }

    constructor (n: nat, mem: Store, disk: Store)
      requires n > 0
      ensures Valid() && cqDoorbell == cqHead && this.n == n && Init(w.q, n) && w.mem == mem && w.disk == disk
      ensures fresh(doneFlag) && fresh(rbuf) && fresh(len) && fresh(sqes) && fresh(cqes) && fresh(buf4k)
    {
      this.n := n;
      sqTail, cqHead, cqPhase, doorbell, cqDoorbell := 0, 0, 1, 0, 0;
      var flags, bufs, lens := new nat[n](_ => 2), new int[n], new nat[n];
      var sq, cq := new Sqe[n](i => Sqe(Read, 0, 0, 0, i)), new Cqe[n](_ => Cqe(0, 0));
      var pages := new seq<byte>[n](_ => seq(BLKSZ, _ => 0));
      doneFlag, rbuf, len, sqes, cqes, buf4k := flags, bufs, lens, sq, cq, pages;
      this.mem := mem;
      var rbufs, lengths := bufs[..], lens[..];
      var slots := seq(n, i requires 0 <= i < n => SlotState(2, rbufs[i], lengths[i], Sqe(Read, 0, 0, 0, i), seq(BLKSZ, _ => 0), -1));
      var q := Queue(n, 0, 0, slots, 0, 1, cq[..], 0, 0, 1, [], 0, [], 0);
      w := World(q, disk, mem);
      new;
      InitInv(q, n);
    }

    /** One turn of the loop in `check_cq`. */
    method ConsumeOne()
      requires Valid() && PhaseMatches(w.q)
      modifies this`mem, this`cqHead, this`cqPhase, this`w, doneFlag
      ensures Valid() && w == Apply(old(w), Consume)
    {
      ApplyInv(w, Consume);
      HeadEntry(w.q);
      var w' := Apply(w, Consume);
      var cid := cqes[cqHead].cid;
      if rbuf[cid] != NULL {
        mem := Put(mem, rbuf[cid], buf4k[cid][..len[cid]]);
      }
      doneFlag[cid] := 1;
      cqHead := cqHead + 1;
      if cqHead == n {
        cqHead := 0;
        cqPhase := 1 - cqPhase;
      }
      w := w';
    }

    /** `check_cq`: every posted completion is consumed, and the device is told the new head. */
    method CheckCq()
      requires Valid()
      modifies this`mem, this`cqHead, this`cqPhase, this`cqDoorbell, this`w, doneFlag
      ensures Valid() && w == Drain(old(w))
      ensures old(cqDoorbell == cqHead) ==> cqDoorbell == cqHead
    {
      hide SlotsOk, DeviceOk, RingOk;
      ghost var goal := Drain(w);
      if cqes[cqHead].phase == cqPhase {
        ConsumeOne();
        while cqes[cqHead].phase == cqPhase
          invariant Valid() && Drain(w) == goal
          decreases |w.q.posted| - w.q.consumed
        {
          PhaseTagExact(w.q);
          ConsumeOne();
        }
        cqDoorbell := cqHead;
      }
    }

    /**
     * `done` for a slot: true means that every request ever given the slot is over. For the slot's latest
     * request the answer is exact; a slot that has served none is not done.
     */
    method Done(cid: nat) returns (b: bool)
      requires Valid() && cid < n
      ensures b <==> w.q.slots[cid].flag == 1
      ensures b ==> SlotOver(w.q, cid)
      ensures var o := w.q.slots[cid].owner;
              if o < 0 then !b else o < |w.q.log| && w.q.log[o].cid == cid && (b <==> w.q.log[o].stage.Consumed?)
    {
      b := doneFlag[cid] == 1;
      assert SlotOk(cid, w.q.slots[cid], w.q.log);
      forall k | 0 <= k < |w.q.log| && w.q.log[k].cid == cid && b ensures w.q.log[k].stage.Consumed? {
        PollSound(w.q, k);
      }
    }

    /** A step of the device: it writes only the completion ring and, for a read, its own bounce buffer. */
    method DeviceStep(e: Event)
      requires Valid() && !e.Submit? && !e.Consume? && Enabled(w.q, e)
      modifies this`w, cqes, buf4k
      ensures Valid() && w == Apply(old(w), e)
    {
      ApplyInv(w, e);
      var w' := Apply(w, e);
      match e {
        case Fetch =>
        case Execute(k) =>
          RunsOwn(w.q, k);
          var cid := w.q.log[k].cid;
          buf4k[cid] := w'.q.slots[cid].bounce;
        case Post(k) =>
          cqes[w.q.tail] := w'.q.cqes[w.q.tail];
      }
      w := w';
    }

    /** Any finite activity of the device between two polls. */
    method Device(es: seq<Event>)
      requires Valid()
      modifies this`w, cqes, buf4k
      ensures Valid() && w == DeviceTurn(old(w), es)
    {
      ghost var goal := DeviceTurn(w, es);
      var i := 0;
      while i < |es|
        invariant i <= |es| && Valid() && DeviceTurn(w, es[i..]) == goal
      {
        if !es[i].Submit? && !es[i].Consume? && Enabled(w.q, es[i]) {
          DeviceStep(es[i]);
        }
        i := i + 1;
      }
    }

    /** The wait in `new_sqe` while the slot at the tail is in flight. */
    method AwaitSlot(turns: seq<seq<Event>>)
      requires Valid()
      modifies this`mem, this`cqHead, this`cqPhase, this`cqDoorbell, this`w, doneFlag, cqes, buf4k
      ensures Valid() && w == Spin(old(w), turns)
      ensures WaitOver(w.q, turns) && |w.q.log| == old(|w.q.log|)
      ensures old(w.q.slots[w.q.sqTail].flag != 0) ==> w == old(w)
    {
      ghost var goal := Spin(w, turns);
      SpinEnds(w, turns);
      var i := 0;
      while i < |turns| && doneFlag[sqTail] == 0
        invariant i <= |turns| && Valid() && Spin(w, turns[i..]) == goal
      {
        Device(turns[i]);
        CheckCq();
        i := i + 1;
      }
    }

    /** `new_sqe` once the wait is over: reserve the slot and advance the tail. */
    method NewSqe() returns (cid: nat)
      requires Arrays() && sqTail < n && doneFlag[sqTail] != 0
      modifies this`sqTail, doneFlag
      ensures cid == old(sqTail) && sqTail == (old(sqTail) + 1) % n
      ensures doneFlag[..] == old(doneFlag[..])[cid := 0]
    {
      var newTail := (sqTail + 1) % n;
      doneFlag[sqTail] := 0;
      cid := sqTail;
      sqTail := newTail;
    }

    /** The rest of a request once its slot is free: fill in the entry and ring the doorbell. */
    method Issue(r: Req) returns (cid: nat)
      requires Valid() && ValidReq(r) && Enabled(w.q, Submit(r))
      modifies this`sqTail, this`doorbell, this`w, doneFlag, rbuf, len, sqes, buf4k
      ensures Valid() && cid == old(sqTail) && w == Apply(old(w), Submit(r))
    {
      ApplyInv(w, Submit(r));
      NextIsMod(sqTail, n);
      cid := NewSqe();
      if r.op.Write? {
        buf4k[cid] := r.data + buf4k[cid][r.len..];
      }
      sqes[cid] := Sqe(r.op, cid, r.lba, r.nblk - 1, sqes[cid].cid);
      rbuf[cid] := if r.op.Read? then r.buf else NULL;
      len[cid] := if r.op.Read? then r.len else 0;
      doorbell := sqTail;
      w := Apply(w, Submit(r));
    }

    /** A read or write request, from `new_sqe` to the doorbell; `None` while the wait has not ended. */
    method Request(op: Op, lba: nat, nblk: nat, length: nat, buf: int, turns: seq<seq<Event>>) returns (slot: Option<nat>)
      requires Valid() && 1 <= nblk <= 8 && length <= SECTOR * nblk && buf != NULL
      modifies this`sqTail, this`doorbell, this`mem, this`cqHead, this`cqPhase, this`cqDoorbell, this`w
      modifies doneFlag, rbuf, len, sqes, cqes, buf4k
      ensures Valid()
      ensures var w1 := Spin(old(w), turns);
              var r := Req(op, lba, nblk, length, buf, if op.Write? then Get(w1.mem, buf, length) else []);
              if w1.q.slots[w1.q.sqTail].flag == 0 then slot == None && w == w1
              else slot == Some(w1.q.sqTail) && w == Apply(w1, Submit(r))
      ensures |w.q.log| == old(|w.q.log|) + if slot.Some? then 1 else 0
      ensures slot.Some? ==>
                var e := w.q.log[|w.q.log| - 1];
                && e.cid == slot.value && e.stage.Queued?
                && e.req.op == op && e.req.lba == lba && e.req.nblk == nblk && e.req.len == length && e.req.buf == buf
      ensures slot == None && turns != [] ==>
                var o := w.q.slots[w.q.sqTail].owner;
                0 <= o < |w.q.log| && w.q.log[o].cid == w.q.sqTail && InFlight(w.q.log[o]) && !w.q.log[o].stage.Posted?
    {
      AwaitSlot(turns);
      if doneFlag[sqTail] == 0 && turns != [] {
        BusyNotPosted(w.q);
      }
      if doneFlag[sqTail] == 0 {
        return None;
      }
      var data := if op.Write? then Get(mem, buf, length) else [];
      var cid := Issue(Req(op, lba, nblk, length, buf, data));
      slot := Some(cid);
    }

    /** `nvme_check` on this queue: true only if every request ever given this slot has been consumed. */
    method Check(cid: nat) returns (ok: bool)
      requires Valid() && cid < n
      modifies this`mem, this`cqHead, this`cqPhase, this`cqDoorbell, this`w, doneFlag
      ensures Valid() && w == (if old(w).q.slots[cid].flag == 1 then old(w) else Drain(old(w)))
      ensures ok <==> w.q.slots[cid].flag == 1
      ensures ok ==> SlotOver(w.q, cid)
    {
      ok := Done(cid);
      if !ok {
        CheckCq();
        ok := Done(cid);
      }
    }
  }
}
