/** When the steps of a queue pair are possible, as long as at most one earlier request is in flight. */
module Service {
  import opened Memory
  import opened Modular
  import opened Sizes
  import opened NvmeQueue
  import opened NvmeSafety

  function Zeros(n: nat): (z: seq<byte>)
    ensures |z| == n && forall i :: 0 <= i < n ==> z[i] == 0
  {
    seq(n, _ => 0)
  }

  /** The slots that no request has used yet have empty bounce buffers. */
  ghost predicate CleanTail(q: Queue) {
    forall i {:trigger q.slots[i]} :: |q.log| <= i < |q.slots| ==> q.slots[i].bounce == Zeros(BLKSZ)
  }

  /** Every request but perhaps the latest is over. */
  ghost predicate OnlyLast(q: Queue) {
    forall k {:trigger q.log[k]} :: 0 <= k < |q.log| - 1 ==> q.log[k].stage.Consumed?
  }

  /** Then the slot at the tail is free, whatever it has served before. */
  lemma TailFree(q: Queue)
    requires Inv(q) && q.n >= 2 && OnlyLast(q)
    ensures q.slots[q.sqTail].flag != 0
  {
    var s := q.slots[q.sqTail];
    assert SlotOk(q.sqTail, s, q.log);
    if s.owner == |q.log| - 1 && s.owner >= 0 {
      assert StageOk(s.owner, q.log[s.owner], q.n, q.fetched, q.posted, q.consumed);
      SlotDistinct(s.owner, |q.log|, q.n);
    }
  }

  lemma FetchReady(q: Queue)
    requires Inv(q) && q.fetched < |q.log| < q.fetched + q.n
    ensures Enabled(q, Fetch)
  {
    DeviceSeesWaiting(q);
  }

  /** The only completion posted and not consumed is the next to be consumed. */
  lemma ConsumeReady(q: Queue, k: nat)
    requires Inv(q) && k < |q.log| && q.log[k].stage.Posted?
    requires forall j {:trigger q.log[j]} :: 0 <= j < |q.log| && j != k ==> !q.log[j].stage.Posted?
    ensures Enabled(q, Consume) && q.consumed < |q.posted| && q.posted[q.consumed] == k
  {
    assert StageOk(k, q.log[k], q.n, q.fetched, q.posted, q.consumed);
    PhaseTagExact(q);
    var j := q.posted[q.consumed];
    assert StageOk(j, q.log[j], q.n, q.fetched, q.posted, q.consumed);
  }

  /** The flag of the request's slot is set. */
  predicate Flagged(q: Queue, k: nat) {
    k < |q.log| && q.log[k].cid < |q.slots| && q.slots[q.log[k].cid].flag == 1
  }

  lemma ExecuteMoves(w: World, k: nat)
    requires Inv(w.q) && Enabled(w.q, Execute(k))
    ensures var q, q' := w.q, Apply(w, Execute(k)).q;
            && |q'.log| == |q.log| && q'.fetched == q.fetched && q'.log[k].stage.Executed?
            && q'.log == q.log[k := q.log[k].(stage := q'.log[k].stage)]
  {
  }

  lemma PostMoves(w: World, k: nat)
    requires Inv(w.q) && Enabled(w.q, Post(k))
    ensures var q, q' := w.q, Apply(w, Post(k)).q;
            && |q'.log| == |q.log| && q'.fetched == q.fetched && q'.log[k].stage.Posted?
            && q'.log == q.log[k := q.log[k].(stage := q'.log[k].stage)]
  {
  }

  lemma ConsumeMoves(w: World, k: nat)
    requires Inv(w.q) && Enabled(w.q, Consume) && w.q.consumed < |w.q.posted| && w.q.posted[w.q.consumed] == k < |w.q.log|
    ensures var q, q' := w.q, Apply(w, Consume).q;
            && |q'.log| == |q.log| && q'.fetched == q.fetched && q'.log[k].stage.Consumed?
            && q'.log == q.log[k := q.log[k].(stage := q'.log[k].stage)]
            && Flagged(q', k)
  {
    HeadEntry(w.q);
  }

  /** A write transfers the front of its slot's bounce buffer. */
  lemma ExecuteSends(w: World, k: nat)
    requires Inv(w.q) && Enabled(w.q, Execute(k)) && w.q.log[k].req.op.Write?
    ensures var e := w.q.log[k];
            && e.cid < |w.q.slots| && SECTOR * e.req.nblk <= |w.q.slots[e.cid].bounce|
            && k < |Apply(w, Execute(k)).q.log|
            && Apply(w, Execute(k)).q.log[k].stage == Executed(e.stage.sqe, w.q.slots[e.cid].bounce[..SECTOR * e.req.nblk])
  {
    RunsOwn(w.q, k);
  }

  /** The bounce buffer of request k begins with the bytes `data`, and with zeros to the end of the last sector. */
  predicate Loaded(q: Queue, k: nat, data: seq<byte>) {
    && k < |q.log| && q.log[k].cid < |q.slots|
    && var size, b := SECTOR * q.log[k].req.nblk, q.slots[q.log[k].cid].bounce;
    && q.log[k].req.op.Write? && |data| <= size <= |b| && b[..size] == data + Zeros(size - |data|)
  }

  lemma LoadedKept(q: Queue, q': Queue, k: nat, data: seq<byte>)
    requires Loaded(q, k, data) && q'.slots == q.slots && k < |q'.log| && q'.log[k] == q.log[k].(stage := q'.log[k].stage)
    ensures Loaded(q', k, data)
  {
  }

  lemma SubmitLoads(q: Queue, r: Req)
    requires Inv(q) && Enabled(q, Submit(r)) && CleanTail(q) && |q.log| < q.n && r.op.Write?
    ensures Loaded(DoSubmit(q, r), |q.log|, r.data)
  {
    FreeSlot(q);
    assert |q.slots[q.sqTail].bounce| == BLKSZ;
    var b := r.data + q.slots[q.sqTail].bounce[r.len..];
    assert b[..SECTOR * r.nblk] == r.data + Zeros(SECTOR * r.nblk - |r.data|);
  }

  lemma LoadedGoes(w: World, k: nat, data: seq<byte>)
    requires Inv(w.q) && Enabled(w.q, Execute(k)) && Loaded(w.q, k, data)
    ensures k < |Apply(w, Execute(k)).q.log|
    ensures var s := Apply(w, Execute(k)).q.log[k].stage;
            s.Executed? && s.data == data + Zeros(SECTOR * w.q.log[k].req.nblk - |data|)
  {
    ExecuteSends(w, k);
  }

  /** A step other than a submission keeps the unused slots clean; a submission uses one. */
  lemma CleanKept(w: World, e: Event)
    requires Inv(w.q) && Enabled(w.q, e) && CleanTail(w.q)
    ensures CleanTail(Apply(w, e).q)
  {
    if |w.q.log| < w.q.n {
      CleanStill(w, e);
    } else if e.Consume? {
      HeadEntry(w.q);
    } else if e.Fetch? {
      FetchSees(w.q);
    }
  }

  lemma CleanStill(w: World, e: Event)
    requires Inv(w.q) && Enabled(w.q, e) && CleanTail(w.q) && |w.q.log| < w.q.n
    ensures CleanTail(Apply(w, e).q)
  {
    match e
    case Submit(r) => FreeSlot(w.q);
    case Fetch => FetchSees(w.q);
    case Execute(k) =>
      RunsOwn(w.q, k);
      SlotSmall(k, w.q.n);
      assert StageOk(k, w.q.log[k], w.q.n, w.q.fetched, w.q.posted, w.q.consumed);
    case Post(k) =>
    case Consume => HeadEntry(w.q);
  }
}
