/**
 * One NVMe submission/completion queue pair shared by the polling driver and a
 * device that fetches in order, transfers and completes in any order.
 *
 * `Queue` holds the driver's variables, the memory both sides share, the
 * device's registers, and a log of every request with the stage it has
 * reached. A command the device holds is kept in the stage of its request; the
 * rest of the log is history that no step consults for a decision.
 */
module NvmeQueue {
  import opened Memory
  import opened Modular
  import opened Sizes

  const NULL: int := 0

  datatype Op = Read | Write

  /** A submission entry. `prp1` names the slot whose bounce buffer the device transfers to or from. */
  datatype Sqe = Sqe(op: Op, prp1: nat, cdw10: nat, cdw12: int, cid: nat)

  /** A completion entry: the command identifier and the phase tag. */
  datatype Cqe = Cqe(cid: nat, phase: nat)

  /** A client's request: `lba` counts sectors of this drive; `data` is what a write copies in. */
  datatype Req = Req(op: Op, lba: nat, nblk: nat, len: nat, buf: int, data: seq<byte>)

  /** Entry i of the driver's per-slot arrays and of the submission ring; `owner` is the latest request. */
  datatype SlotState = SlotState(flag: nat, rbuf: int, len: nat, sqe: Sqe, bounce: seq<byte>, owner: int)

  /** How far a request has come; `at` is its place in the order of posting, `data` what was transferred. */
  datatype Stage =
    | Queued
    | Fetched(sqe: Sqe)
    | Executed(sqe: Sqe, data: seq<byte>)
    | Posted(at: nat, data: seq<byte>)
    | Consumed(at: nat, data: seq<byte>)

  datatype Entry = Entry(req: Req, cid: nat, stage: Stage)

  datatype Queue = Queue(
    n: nat,
    // driver and shared memory
    sqTail: nat, doorbell: nat, slots: seq<SlotState>,
    cqHead: nat, cqPhase: nat, cqes: seq<Cqe>,
    // device
    head: nat, tail: nat, phase: nat,
    // history
    log: seq<Entry>, fetched: nat, posted: seq<nat>, consumed: nat)

  datatype Event = Submit(req: Req) | Fetch | Execute(k: nat) | Post(k: nat) | Consume

  /** What the client code hands down: 1 to 8 sectors, at most as many bytes, a real buffer for a read. */
  predicate ValidReq(r: Req) {
    && 1 <= r.nblk <= 8
    && r.len <= SECTOR * r.nblk
    && (r.op.Read? ==> r.buf != NULL)
    && (r.op.Write? ==> |r.data| == r.len)
  }

  function SqeOf(r: Req, slot: nat): Sqe {
    Sqe(r.op, slot, r.lba, r.nblk - 1, slot)
  }

  /** A write leaves no buffer to copy into. */
  function RbufOf(r: Req): int {
    if r.op.Read? then r.buf else NULL
  }

  function LenOf(r: Req): nat {
    if r.op.Read? then r.len else 0
  }

  predicate InFlight(e: Entry) {
    !e.stage.Consumed?
  }

  // ---- the invariant --------------------------------------------------------------------

  /** Both sides' ring indices and phases stand for the counts of the history. */
  predicate Shape(q: Queue) {
    && q.n > 0
    && |q.slots| == |q.cqes| == q.n
    && q.fetched <= |q.log|
    && q.consumed <= |q.posted|
    && q.sqTail == q.doorbell == Slot(|q.log|, q.n)
    && q.head == Slot(q.fetched, q.n)
    && q.cqHead == Slot(q.consumed, q.n) && q.cqPhase == Phase(q.consumed, q.n)
    && q.tail == Slot(|q.posted|, q.n) && q.phase == Phase(|q.posted|, q.n)
  }

  /** Slot i tells the truth about its latest request, and only about that one. */
  ghost predicate SlotOk(i: nat, s: SlotState, log: seq<Entry>) {
    && |s.bounce| == BLKSZ
    && s.sqe.cid == i
    && s.owner < |log|
    && if s.owner < 0 then s.flag == 2
       else
         var e := log[s.owner];
         && e.cid == i
         && s.flag == (if InFlight(e) then 0 else 1)
         && (InFlight(e) ==> SlotHolds(i, s, e))
  }

  /** What slot i holds while request `e` is in flight there. */
  ghost predicate SlotHolds(i: nat, s: SlotState, e: Entry) {
    && s.rbuf == RbufOf(e.req)
    && s.len == LenOf(e.req)
    && s.sqe == SqeOf(e.req, i)
    && (e.req.op.Write? ==> e.req.data <= s.bounce)
    && (e.req.op.Read? && (e.stage.Executed? || e.stage.Posted?) ==> e.stage.data <= s.bounce)
  }

  ghost predicate SlotsOk(slots: seq<SlotState>, log: seq<Entry>)
  {
    && (forall i {:trigger slots[i]} :: 0 <= i < |slots| ==> SlotOk(i, slots[i], log))
    && (forall k {:trigger log[k]} :: 0 <= k < |log| ==>
          && ValidReq(log[k].req)
          && log[k].cid < |slots|
          && (InFlight(log[k]) ==> slots[log[k].cid].owner == k))
  }

  /** The stage of request k agrees with the device's progress. */
  ghost predicate StageOk(k: nat, e: Entry, n: nat, fetched: nat, posted: seq<nat>, consumed: nat)
    requires n > 0
  {
    && e.cid == Slot(k, n)
    && (e.stage.Queued? <==> fetched <= k)
    && (e.stage.Fetched? || e.stage.Executed? ==> e.stage.sqe == SqeOf(e.req, e.cid))
    && (e.req.op.Read? && !e.stage.Queued? && !e.stage.Fetched? ==> |e.stage.data| == SECTOR * e.req.nblk)
    && (e.stage.Posted? ==> consumed <= e.stage.at)
    && (e.stage.Consumed? ==> e.stage.at < consumed)
    && (e.stage.Posted? || e.stage.Consumed? ==> e.stage.at < |posted| && posted[e.stage.at] == k)
  }

  /** The device works on fetched commands only and posts each once. */
  ghost predicate DeviceOk(n: nat, log: seq<Entry>, fetched: nat, posted: seq<nat>, consumed: nat)
    requires n > 0
  {
    && (forall k {:trigger log[k]} :: 0 <= k < |log| ==> StageOk(k, log[k], n, fetched, posted, consumed))
    && (forall i {:trigger posted[i]} :: 0 <= i < |posted| ==>
          && posted[i] < |log|
          && (log[posted[i]].stage.Posted? || log[posted[i]].stage.Consumed?)
          && log[posted[i]].stage.at == i)
  }

  /** The completion ring holds the last lap of postings, tagged with their lap's phase. */
  ghost predicate RingOk(n: nat, cqes: seq<Cqe>, posted: seq<nat>, consumed: nat)
    requires n > 0 && |cqes| == n
  {
    && |posted| <= consumed + n
    && (forall j {:trigger posted[j]} :: 0 <= j < |posted| <= j + n ==>
          cqes[Slot(j, n)] == Cqe(Slot(posted[j], n), Phase(j, n)))
    && (forall i {:trigger cqes[i]} :: |posted| <= i < n ==> cqes[i].phase == 0)
  }

  ghost predicate Inv(q: Queue) {
    && Shape(q)
    && SlotsOk(q.slots, q.log)
    && DeviceOk(q.n, q.log, q.fetched, q.posted, q.consumed)
    && RingOk(q.n, q.cqes, q.posted, q.consumed)
  }

  /** A fresh queue pair: flags 2, zeroed rings, phase 1; `rbuf` and `len` hold whatever was in memory. */
  ghost predicate Init(q: Queue, n: nat) {
    && n > 0 && q.n == n
    && q.sqTail == 0 && q.doorbell == 0 && q.cqHead == 0 && q.cqPhase == 1
    && |q.slots| == n
    && (forall i {:trigger q.slots[i]} :: 0 <= i < n ==>
          q.slots[i].flag == 2 && q.slots[i].sqe.cid == i && |q.slots[i].bounce| == BLKSZ && q.slots[i].owner == -1)
    && |q.cqes| == n && (forall i :: 0 <= i < n ==> q.cqes[i].phase == 0)
    && q.head == 0 && q.tail == 0 && q.phase == 1
    && q.log == [] && q.fetched == 0 && q.posted == [] && q.consumed == 0
  }

  // ---- the steps ------------------------------------------------------------------------

  /** The poll condition: the entry at the head carries the phase the driver expects next. */
  predicate PhaseMatches(q: Queue)
    requires q.cqHead < |q.cqes|
  {
    q.cqes[q.cqHead].phase == q.cqPhase
  }

  predicate Enabled(q: Queue, e: Event)
    requires Shape(q)
  {
    match e
    case Submit(r) => ValidReq(r) && q.slots[q.sqTail].flag != 0
    case Fetch => q.head != q.doorbell
    case Execute(k) => k < |q.log| && q.log[k].stage.Fetched?
    case Post(k) => k < |q.log| && q.log[k].stage.Executed?
    case Consume => PhaseMatches(q)
  }

  /** The slot after `new_sqe` chose it, the entry was filled in and a write's bytes were copied. */
  function SubmittedSlot(s: SlotState, cid: nat, r: Req, k: nat): SlotState
    requires ValidReq(r) && |s.bounce| == BLKSZ
  {
    SlotState(0, RbufOf(r), LenOf(r), Sqe(r.op, cid, r.lba, r.nblk - 1, s.sqe.cid),
              if r.op.Write? then r.data + s.bounce[r.len..] else s.bounce, k)
  }

  /** `new_sqe` once the slot is free, the request filled in, the doorbell rung: one lock hold. */
  function DoSubmit(q: Queue, r: Req): Queue
    requires Inv(q) && Enabled(q, Submit(r))
  {
    var cid, k := q.sqTail, |q.log|;
    q.(sqTail := Next(cid, q.n), doorbell := Next(cid, q.n),
       slots := q.slots[cid := SubmittedSlot(q.slots[cid], cid, r, k)],
       log := q.log + [Entry(r, cid, Queued)])
  }

  /** The device takes the entry at its head; it cannot see past the doorbell. */
  function DoFetch(q: Queue): Queue
    requires Inv(q) && Enabled(q, Fetch) && q.fetched < |q.log|
  {
    q.(head := Next(q.head, q.n),
       log := q.log[q.fetched := q.log[q.fetched].(stage := Fetched(q.slots[q.head].sqe))],
       fetched := q.fetched + 1)
  }

  /** The bytes command `c` transfers: from the drive for a read, whole sectors of its bounce buffer for a write. */
  function Transfer(c: Sqe, bounce: seq<byte>, disk: Store): seq<byte>
    requires 0 <= c.cdw12 < 8 && |bounce| == BLKSZ
  {
    var size := SECTOR * (c.cdw12 + 1);
    if c.op.Read? then Get(disk, SECTOR * c.cdw10, size) else bounce[..size]
  }

  function DoExecute(q: Queue, k: nat, disk: Store): Queue
    requires Inv(q) && Enabled(q, Execute(k))
  {
    var c := q.log[k].stage.sqe;
    var s := q.slots[c.prp1];
    var d := Transfer(c, s.bounce, disk);
    q.(slots := if c.op.Read? then q.slots[c.prp1 := s.(bounce := d + s.bounce[|d|..])] else q.slots,
       log := q.log[k := q.log[k].(stage := Executed(c, d))])
  }

  function ExecutedDisk(q: Queue, k: nat, disk: Store): Store
    requires Inv(q) && Enabled(q, Execute(k))
  {
    var c := q.log[k].stage.sqe;
    if c.op.Read? then disk else Put(disk, SECTOR * c.cdw10, Transfer(c, q.slots[c.prp1].bounce, disk))
  }

  /** The device posts the completion at its tail and inverts its phase when it wraps. */
  function DoPost(q: Queue, k: nat): Queue
    requires Inv(q) && Enabled(q, Post(k))
  {
    q.(cqes := q.cqes[q.tail := Cqe(q.log[k].stage.sqe.cid, q.phase)],
       tail := Next(q.tail, q.n),
       phase := if Next(q.tail, q.n) == 0 then 1 - q.phase else q.phase,
       log := q.log[k := q.log[k].(stage := Posted(|q.posted|, q.log[k].stage.data))],
       posted := q.posted + [k])
  }

  /** One turn of the loop in `check_cq`, apart from the copy to the client. */
  function DoConsume(q: Queue): Queue
    requires Inv(q) && Enabled(q, Consume)
  {
    HeadEntry(q);
    var cid := q.cqes[q.cqHead].cid;
    var k := q.posted[q.consumed];
    q.(slots := q.slots[cid := q.slots[cid].(flag := 1)],
       cqHead := Next(q.cqHead, q.n),
       cqPhase := if Next(q.cqHead, q.n) == 0 then 1 - q.cqPhase else q.cqPhase,
       log := q.log[k := q.log[k].(stage := Consumed(q.consumed, q.log[k].stage.data))],
       consumed := q.consumed + 1)
  }

  /** The copy to the client in the same turn. */
  function ConsumedMem(q: Queue, mem: Store): Store
    requires Inv(q) && Enabled(q, Consume)
  {
    HeadEntry(q);
    var s := q.slots[q.cqes[q.cqHead].cid];
    if s.rbuf != NULL then Put(mem, s.rbuf, s.bounce[..s.len]) else mem
  }

  // ---- phase tags -----------------------------------------------------------------------

  /**
   * The phase test is exact: the head entry carries the expected phase exactly when the device has
   * posted more completions than were consumed, and then it is the oldest unconsumed one.
   */
  lemma PhaseTagExact(q: Queue)
    requires Inv(q)
    ensures PhaseMatches(q) <==> q.consumed < |q.posted|
    ensures PhaseMatches(q) ==> q.cqes[q.cqHead].cid == Slot(q.posted[q.consumed], q.n)
    ensures |q.posted| - q.consumed <= q.n
  {
    var c, n := q.consumed, q.n;
    if c < |q.posted| {
      assert q.cqes[Slot(c, n)] == Cqe(Slot(q.posted[c], n), Phase(c, n));
    } else if c >= n {
      assert q.cqes[Slot(c - n, n)] == Cqe(Slot(q.posted[c - n], n), Phase(c - n, n));
    }
  }

  /** What the head entry stands for when the phase test succeeds. */
  lemma HeadEntry(q: Queue)
    requires Inv(q) && Enabled(q, Consume)
    ensures q.consumed < |q.posted|
    ensures var k := q.posted[q.consumed];
            && k < |q.log|
            && q.log[k].stage.Posted? && q.log[k].stage.at == q.consumed
            && q.cqes[q.cqHead].cid == q.log[k].cid < q.n
            && SlotHolds(q.log[k].cid, q.slots[q.log[k].cid], q.log[k])
            && q.slots[q.log[k].cid].len <= BLKSZ == |q.slots[q.log[k].cid].bounce|
  {
    PhaseTagExact(q);
    var k := q.posted[q.consumed];
    assert q.log[k].stage.at == q.consumed;
    assert SlotOk(q.log[k].cid, q.slots[q.log[k].cid], q.log);
  }

  // ---- every step keeps the invariant ---------------------------------------------------

  lemma InitInv(q: Queue, n: nat)
    requires Init(q, n)
    ensures Inv(q)
  {
  }

  lemma SubmitSlots(slots: seq<SlotState>, log: seq<Entry>, cid: nat, r: Req)
    requires SlotsOk(slots, log) && cid < |slots| && slots[cid].flag != 0 && ValidReq(r)
    ensures SlotsOk(slots[cid := SubmittedSlot(slots[cid], cid, r, |log|)], log + [Entry(r, cid, Queued)])
  {
    var slots' := slots[cid := SubmittedSlot(slots[cid], cid, r, |log|)];
    var log' := log + [Entry(r, cid, Queued)];
    assert SlotOk(cid, slots[cid], log);
    forall i | 0 <= i < |slots| ensures SlotOk(i, slots'[i], log') {
      assert SlotOk(i, slots[i], log);
    }
  }

  lemma SubmitInv(q: Queue, r: Req)
    requires Inv(q) && Enabled(q, Submit(r))
    ensures Inv(DoSubmit(q, r))
  {
    SlotNext(|q.log|, q.n);
    SubmitSlots(q.slots, q.log, q.sqTail, r);
  }

  /** The device sees an entry only if it was submitted, and then it sees that request's command. */
  lemma FetchSees(q: Queue)
    requires Inv(q) && Enabled(q, Fetch)
    ensures q.fetched < |q.log| && q.log[q.fetched].stage.Queued?
    ensures q.slots[q.head].sqe == SqeOf(q.log[q.fetched].req, q.log[q.fetched].cid)
  {
    assert q.fetched < |q.log|;
    var e := q.log[q.fetched];
    assert StageOk(q.fetched, e, q.n, q.fetched, q.posted, q.consumed);
    assert SlotOk(e.cid, q.slots[e.cid], q.log);
  }

  /** A new stage for request k, still in flight, leaves every slot's truth as it was. */
  lemma RestageSlots(slots: seq<SlotState>, log: seq<Entry>, k: nat, stage: Stage)
    requires SlotsOk(slots, log) && k < |log| && InFlight(log[k]) && !stage.Consumed?
    requires var e := log[k].(stage := stage);
             SlotHolds(e.cid, slots[e.cid], e)
    ensures SlotsOk(slots, log[k := log[k].(stage := stage)])
  {
    var log' := log[k := log[k].(stage := stage)];
    forall i | 0 <= i < |slots| ensures SlotOk(i, slots[i], log') {
      assert SlotOk(i, slots[i], log);
    }
  }

  lemma FetchDevice(n: nat, log: seq<Entry>, k: nat, posted: seq<nat>, consumed: nat)
    requires n > 0 && k < |log| && DeviceOk(n, log, k, posted, consumed)
    ensures DeviceOk(n, log[k := log[k].(stage := Fetched(SqeOf(log[k].req, log[k].cid)))], k + 1, posted, consumed)
  {
    var log' := log[k := log[k].(stage := Fetched(SqeOf(log[k].req, log[k].cid)))];
    forall j | 0 <= j < |log| ensures StageOk(j, log'[j], n, k + 1, posted, consumed) {
      assert StageOk(j, log[j], n, k, posted, consumed);
    }
  }

  lemma FetchInv(q: Queue)
    requires Inv(q) && Enabled(q, Fetch)
    ensures q.fetched < |q.log| && Inv(DoFetch(q))
  {
    FetchSees(q);
    SlotNext(q.fetched, q.n);
    var k := q.fetched;
    assert SlotOk(q.log[k].cid, q.slots[q.log[k].cid], q.log);
    RestageSlots(q.slots, q.log, k, Fetched(q.slots[q.head].sqe));
    FetchDevice(q.n, q.log, k, q.posted, q.consumed);
  }

  /** What a command about to run works on: its own request's range and its own slot's buffer. */
  lemma RunsOwn(q: Queue, k: nat)
    requires Inv(q) && k < |q.log| && q.log[k].stage.Fetched?
    ensures var e := q.log[k];
            && e.stage.sqe == SqeOf(e.req, e.cid)
            && ValidReq(e.req)
            && e.cid < q.n
            && |q.slots[e.cid].bounce| == BLKSZ
            && SlotHolds(e.cid, q.slots[e.cid], e)
  {
    assert StageOk(k, q.log[k], q.n, q.fetched, q.posted, q.consumed);
    assert SlotOk(q.log[k].cid, q.slots[q.log[k].cid], q.log);
  }

  lemma ExecuteReadSlots(slots: seq<SlotState>, log: seq<Entry>, k: nat, c: Sqe, d: seq<byte>)
    requires SlotsOk(slots, log) && k < |log| && InFlight(log[k]) && log[k].req.op.Read?
    requires |d| <= BLKSZ && log[k].cid < |slots| && |slots[log[k].cid].bounce| == BLKSZ
    ensures var cid := log[k].cid;
            SlotsOk(slots[cid := slots[cid].(bounce := d + slots[cid].bounce[|d|..])],
                    log[k := log[k].(stage := Executed(c, d))])
  {
    var cid := log[k].cid;
    var slots' := slots[cid := slots[cid].(bounce := d + slots[cid].bounce[|d|..])];
    var log' := log[k := log[k].(stage := Executed(c, d))];
    forall i | 0 <= i < |slots| ensures SlotOk(i, slots'[i], log') {
      assert SlotOk(i, slots[i], log);
    }
  }

  lemma ExecuteInv(q: Queue, k: nat, disk: Store)
    requires Inv(q) && Enabled(q, Execute(k))
    ensures Inv(DoExecute(q, k, disk))
  {
    RunsOwn(q, k);
    var e := q.log[k];
    var c := e.stage.sqe;
    var d := Transfer(c, q.slots[c.prp1].bounce, disk);
    if c.op.Read? {
      ExecuteReadSlots(q.slots, q.log, k, c, d);
    } else {
      RestageSlots(q.slots, q.log, k, Executed(c, d));
    }
  }

  lemma PostRing(n: nat, cqes: seq<Cqe>, posted: seq<nat>, consumed: nat, k: nat)
    requires n > 0 && |cqes| == n && RingOk(n, cqes, posted, consumed) && |posted| < consumed + n
    ensures RingOk(n, cqes[Slot(|posted|, n) := Cqe(Slot(k, n), Phase(|posted|, n))], posted + [k], consumed)
  {
    var p := |posted|;
    forall j: nat | j < p && p + 1 <= j + n ensures Slot(j, n) != Slot(p, n) {
      SlotDistinct(j, p, n);
    }
  }

  /** Slot reservation, not flow control, leaves room in the completion ring for every command that runs. */
  lemma PostRoom(q: Queue, k: nat)
    requires Inv(q) && k < |q.log| && InFlight(q.log[k]) && !q.log[k].stage.Posted?
    ensures |q.posted| - q.consumed < q.n
  {
    hide RingOk, SlotOk, SlotHolds, ValidReq;
    var c := q.consumed;
    var last := |q.posted| - c;
    var out: seq<nat> := seq(last + 1, i requires 0 <= i <= last => if i == last then k else q.posted[c + i]);
    var outSlots := seq(last + 1, i requires 0 <= i <= last => Slot(out[i], q.n));
    forall i | 0 <= i <= last ensures out[i] < |q.log| && q.slots[outSlots[i]].owner == out[i] {
      assert InFlight(q.log[out[i]]) && q.log[out[i]].cid == outSlots[i];
    }
    forall i, j | 0 <= i < j <= last ensures outSlots[i] != outSlots[j] {
      assert q.slots[outSlots[i]].owner == out[i] && q.slots[outSlots[j]].owner == out[j];
      assert out[i] == q.posted[c + i] && q.log[out[i]].stage.at == c + i;
    }
    DistinctBound(outSlots, 0, q.n);
  }

  lemma PostDevice(n: nat, log: seq<Entry>, fetched: nat, posted: seq<nat>, consumed: nat, k: nat)
    requires n > 0 && DeviceOk(n, log, fetched, posted, consumed) && consumed <= |posted|
    requires k < |log| && log[k].stage.Executed?
    ensures DeviceOk(n, log[k := log[k].(stage := Posted(|posted|, log[k].stage.data))], fetched, posted + [k], consumed)
  {
    var log' := log[k := log[k].(stage := Posted(|posted|, log[k].stage.data))];
    forall j | 0 <= j < |log| ensures StageOk(j, log'[j], n, fetched, posted + [k], consumed) {
      assert StageOk(j, log[j], n, fetched, posted, consumed);
    }
  }

  lemma PostInv(q: Queue, k: nat)
    requires Inv(q) && Enabled(q, Post(k))
    ensures Inv(DoPost(q, k))
  {
    SlotNext(|q.posted|, q.n);
    PostRoom(q, k);
    PostRing(q.n, q.cqes, q.posted, q.consumed, k);
    var e := q.log[k];
    assert StageOk(k, e, q.n, q.fetched, q.posted, q.consumed);
    assert SlotOk(e.cid, q.slots[e.cid], q.log);
    RestageSlots(q.slots, q.log, k, Posted(|q.posted|, e.stage.data));
    PostDevice(q.n, q.log, q.fetched, q.posted, q.consumed, k);
  }

  lemma ConsumeSlots(slots: seq<SlotState>, log: seq<Entry>, k: nat, at: nat)
    requires SlotsOk(slots, log) && k < |log| && log[k].stage.Posted?
    ensures log[k].cid < |slots|
    ensures SlotsOk(slots[log[k].cid := slots[log[k].cid].(flag := 1)],
                    log[k := log[k].(stage := Consumed(at, log[k].stage.data))])
  {
    var cid := log[k].cid;
    var slots' := slots[cid := slots[cid].(flag := 1)];
    var log' := log[k := log[k].(stage := Consumed(at, log[k].stage.data))];
    forall i | 0 <= i < |slots| ensures SlotOk(i, slots'[i], log') {
      assert SlotOk(i, slots[i], log);
    }
  }

  lemma ConsumeDevice(n: nat, log: seq<Entry>, fetched: nat, posted: seq<nat>, consumed: nat, k: nat)
    requires n > 0 && DeviceOk(n, log, fetched, posted, consumed) && consumed < |posted|
    requires k == posted[consumed] < |log| && log[k].stage.Posted?
    ensures DeviceOk(n, log[k := log[k].(stage := Consumed(consumed, log[k].stage.data))], fetched, posted, consumed + 1)
  {
    var log' := log[k := log[k].(stage := Consumed(consumed, log[k].stage.data))];
    forall j | 0 <= j < |log| ensures StageOk(j, log'[j], n, fetched, posted, consumed + 1) {
      assert StageOk(j, log[j], n, fetched, posted, consumed);
    }
  }

  lemma ConsumeInv(q: Queue)
    requires Inv(q) && Enabled(q, Consume)
    ensures Inv(DoConsume(q))
  {
    HeadEntry(q);
    SlotNext(q.consumed, q.n);
    ConsumeSlots(q.slots, q.log, q.posted[q.consumed], q.consumed);
    ConsumeDevice(q.n, q.log, q.fetched, q.posted, q.consumed, q.posted[q.consumed]);
  }

  // ---- runs -----------------------------------------------------------------------------

  datatype World = World(q: Queue, disk: Store, mem: Store)

  /** One step of the driver or of the device. */
  function Apply(w: World, e: Event): World
    requires Inv(w.q) && Enabled(w.q, e)
  {
    match e
    case Submit(r) => w.(q := DoSubmit(w.q, r))
    case Fetch => FetchSees(w.q); w.(q := DoFetch(w.q))
    case Execute(k) => w.(q := DoExecute(w.q, k, w.disk), disk := ExecutedDisk(w.q, k, w.disk))
    case Post(k) => w.(q := DoPost(w.q, k))
    case Consume => w.(q := DoConsume(w.q), mem := ConsumedMem(w.q, w.mem))
  }

  lemma ApplyInv(w: World, e: Event)
    requires Inv(w.q) && Enabled(w.q, e)
    ensures Inv(Apply(w, e).q)
  {
    match e
    case Submit(r) => SubmitInv(w.q, r);
    case Fetch => FetchInv(w.q);
    case Execute(k) => ExecuteInv(w.q, k, w.disk);
    case Post(k) => PostInv(w.q, k);
    case Consume => ConsumeInv(w.q);
  }

  /** `e` takes `w` to `w'`. */
  ghost predicate Step(w: World, e: Event, w': World) {
    Inv(w.q) ==> Enabled(w.q, e) && w' == Apply(w, e)
  }

  /** A behaviour: the states `ws` passed through by the steps `es`, in any interleaving of both sides. */
  ghost predicate Behavior(ws: seq<World>, es: seq<Event>) {
    && |ws| == |es| + 1
    && Inv(ws[0].q)
    && forall i {:trigger es[i]} :: 0 <= i < |es| ==> Step(ws[i], es[i], ws[i + 1])
  }

  lemma {:induction false} BehaviorInv(ws: seq<World>, es: seq<Event>, i: nat)
    requires Behavior(ws, es) && i <= |es|
    ensures Inv(ws[i].q)
    ensures i < |es| ==> Enabled(ws[i].q, es[i]) && ws[i + 1] == Apply(ws[i], es[i])
  {
    if i > 0 {
      BehaviorInv(ws, es, i - 1);
      ApplyInv(ws[i - 1], es[i - 1]);
    }
    if i < |es| {
      assert Step(ws[i], es[i], ws[i + 1]);
    }
  }
}
