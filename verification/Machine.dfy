/**
 * The stack over real queue pairs: every drive has one for every core, clients learn of completions by
 * polling request ids, and what reaches the drives and the callers' buffers is what the queue pairs do.
 */
module Machine {
  import opened Memory
  import opened Sizes
  import opened Volume
  import N = NvmeQueue
  import NS = NvmeSafety
  import A = Addressing
  import C = Calls
  import S = Stack
  import R = ReadAfterWrite

  type Qp = (nat, nat)

  /** A request id a call holds; which request it was issued for is history. */
  datatype Ticket = Ticket(rid: nat, qp: Qp, nth: nat) {
    function Request(): Key {
      (qp, nth)
    }
  }

  /**
   * `pool.reqs`, `pool.spec` and the calls' `wild` are history. Every drive has a queue pair of depth `qd` for
   * each of `cores` cores; `awaits` are the request ids a call has not yet seen complete, `last` is the request it
   * issued last.
   */
  datatype Machine = Machine(pool: S.State, cores: nat, qd: nat, queues: map<Qp, N.Queue>, awaits: map<nat, set<Ticket>>,
                             last: map<nat, Key>)

  datatype Event =
    | Host(e: S.Event)
    | Issue(id: nat, qp: Qp)
    | Poll(id: nat, t: Ticket)
    | Device(qp: Qp, d: N.Event)

  /** What the host hands to the queue pair for a request. */
  function ReqOf(r: Pending): N.Req {
    N.Req(if r.write then N.Write else N.Read, r.dlba, r.nblk, r.len, r.buf, r.data)
  }

  // ---- the invariant --------------------------------------------------------------------

  ghost predicate QueuesOk(queues: map<Qp, N.Queue>, nd: nat, cores: nat, qd: nat) {
    forall u {:trigger queues[u]} :: u in queues ==> u.0 < nd && u.1 < cores && N.Inv(queues[u]) && queues[u].n == qd
  }

  /** The history's view of a request and the queue pair's agree. */
  predicate Match(r: Pending, did: nat, e: N.Entry) {
    && r.did == did && e.req == ReqOf(r)
    && match e.stage
       case Queued => r.stage.Waiting?
       case Fetched(_) => r.stage.Waiting?
       case Executed(_, d) => r.stage.Executed? && (!r.write ==> r.stage.got == d)
       case Posted(_, d) => r.stage.Executed? && (!r.write ==> r.stage.got == d)
       case Consumed(_, _) => false
  }

  /** The requests under way are exactly those in flight on some queue pair. */
  ghost predicate Tracked(queues: map<Qp, N.Queue>, reqs: map<Key, Pending>) {
    && (forall k {:trigger reqs[k]} :: k in reqs ==>
          k.0 in queues && k.1 < |queues[k.0].log| && Match(reqs[k], k.0.0, queues[k.0].log[k.1]))
    && (forall u, j: nat {:trigger queues[u].log[j]} :: u in queues && j < |queues[u].log| && N.InFlight(queues[u].log[j]) ==>
          (u, j) in reqs)
  }

  /** How a queue pair and a slot are numbered. */
  type Numbering = (Qp, nat) -> nat

  function Rids(m: Machine): Numbering {
    (u: Qp, cid: nat) => A.Rid(u.0, u.1, cid, m.cores, m.qd)
  }

  /** The ticket is for a request in the log, under the number of its queue pair and slot. */
  predicate TicketOk(rid: Numbering, queues: map<Qp, N.Queue>, t: Ticket) {
    && t.qp in queues && t.nth < |queues[t.qp].log|
    && t.rid == rid(t.qp, queues[t.qp].log[t.nth].cid)
  }

  ghost predicate TicketsOk(rid: Numbering, queues: map<Qp, N.Queue>, awaits: map<nat, set<Ticket>>) {
    forall a, t {:trigger t in awaits[a]} :: a in awaits && t in awaits[a] ==> TicketOk(rid, queues, t)
  }

  ghost predicate Held(awaits: map<nat, set<Ticket>>, a: nat, k: Key) {
    a in awaits && exists t {:trigger t in awaits[a]} :: t in awaits[a] && t.Request() == k
  }

  /** An active call still awaits each of its requests under way. */
  ghost predicate Awaited(calls: map<nat, C.Call>, reqs: map<Key, Pending>, awaits: map<nat, set<Ticket>>) {
    forall k {:trigger reqs[k]} :: k in reqs && reqs[k].call in calls ==> Held(awaits, reqs[k].call, k)
  }

  /** The request a call issued last reaches to where the call has come. */
  ghost predicate LastOk(calls: map<nat, C.Call>, reqs: map<Key, Pending>, last: map<nat, Key>) {
    forall a {:trigger last[a]} :: a in calls && a in last && last[a] in reqs && reqs[last[a]].call == a ==>
      reqs[last[a]].o + C.SizeOf(calls[a]) >= calls[a].issued
  }

  ghost predicate Inv(m: Machine) {
    S.Inv(m.pool) && Kept(m)
  }

  ghost predicate Kept(m: Machine) {
    && QueuesOk(m.queues, |m.pool.disks|, m.cores, m.qd) && Tracked(m.queues, m.pool.reqs)
    && TicketsOk(Rids(m), m.queues, m.awaits) && Awaited(m.pool.calls, m.pool.reqs, m.awaits)
    && LastOk(m.pool.calls, m.pool.reqs, m.last)
  }

  ghost predicate Init(m: Machine) {
    && S.Init(m.pool) && m.awaits == map[]
    && (forall u {:trigger m.queues[u]} :: u in m.queues ==> u.0 < |m.pool.disks| && u.1 < m.cores && N.Init(m.queues[u], m.qd))
  }

  // ---- the steps ------------------------------------------------------------------------

  /** The queue pair with the drive and the host memory it works on. */
  function WorldOf(m: Machine, u: Qp): N.World
    requires u in m.queues && u.0 < |m.pool.disks|
  {
    N.World(m.queues[u], m.pool.disks[u.0], m.pool.mem)
  }

  /** The note history takes of a queue pair's step from w to w'. */
  function Noted(reqs: map<Key, Pending>, u: Qp, w: N.World, e: N.Event, w': N.World): map<Key, Pending> {
    match e
    case Execute(k) =>
      if (u, k) in reqs && k < |w'.q.log| && w'.q.log[k].stage.Executed? then
        var r := reqs[(u, k)];
        reqs[(u, k) := r.(stage := Executed(if r.write then [] else w'.q.log[k].stage.data))]
      else reqs
    case Consume => if w.q.consumed < |w.q.posted| then reqs - {(u, w.q.posted[w.q.consumed])} else reqs
    case _ => reqs
  }

  /** The pool's view of a queue pair's step: the drive, the host memory and history after it. */
  function After(pool: S.State, u: Qp, w: N.World, d: N.Event, w': N.World): S.State
    requires u.0 < |pool.disks|
  {
    pool.(disks := pool.disks[u.0 := w'.disk], mem := w'.mem, reqs := Noted(pool.reqs, u, w, d, w'))
  }

  /**
   * A call may return when everything was issued and each request id it awaits has been seen complete; a write
   * does not look at its last one.
   */
  predicate Returns(m: Machine, id: nat)
    requires id in m.pool.calls
  {
    && m.pool.calls[id].issued >= m.pool.calls[id].len && id in m.awaits
    && if m.pool.calls[id].write then forall t :: t in m.awaits[id] ==> id in m.last && t.Request() == m.last[id] else m.awaits[id] == {}
  }

  /** The clients' and the file system's own steps; how a call returns is for the machine to say. */
  ghost predicate HostStep(m: Machine, h: S.Event, m': Machine) {
    && !h.Issue? && !h.Execute? && !h.Consume?
    && (if h.End? then h.id in m.pool.calls && Returns(m, h.id) && m'.pool == m.pool.(calls := m.pool.calls - {h.id})
        else S.Step(m.pool, h, m'.pool))
    && m' == m.(pool := m'.pool, awaits := if h.Begin? then m.awaits[h.id := {}] else m.awaits)
  }

  /** A call's next request goes to the queue pair of its drive, on some core, and gets the number of its slot. */
  ghost predicate IssueStep(m: Machine, id: nat, u: Qp, m': Machine)
    requires QueuesOk(m.queues, |m.pool.disks|, m.cores, m.qd)
  {
    && u in m.queues && id in m.awaits
    && var q, k := m.queues[u], (u, |m.queues[u].log|);
    && S.Issues(m.pool, id, k, m'.pool)
    && var r := m'.pool.reqs[k];
    && r.did == u.0
    && N.Enabled(q, N.Submit(ReqOf(r)))
    && m' == m.(pool := m'.pool, queues := m.queues[u := N.DoSubmit(q, ReqOf(r))],
                awaits := m.awaits[id := m.awaits[id] + {Ticket(Rids(m)(u, q.sqTail), u, |q.log|)}], last := m.last[id := k])
  }

  /** nvme_check: the request id alone says which flag to look at. */
  ghost predicate PollStep(m: Machine, id: nat, t: Ticket, m': Machine) {
    && id in m.awaits && t in m.awaits[id] && m.cores > 0 && m.qd > 0
    && var p := A.Decode(t.rid, m.cores, m.qd);
    && p.qid > 0 && (p.did, p.qid - 1) in m.queues
    && var q := m.queues[(p.did, p.qid - 1)];
    && p.cid < |q.slots| && q.slots[p.cid].flag == 1
    && m' == m.(awaits := m.awaits[id := m.awaits[id] - {t}])
  }

  /** A queue pair's own steps: the device's, and the host's consumption of a completion. */
  ghost predicate DeviceStep(m: Machine, u: Qp, d: N.Event, m': Machine)
    requires QueuesOk(m.queues, |m.pool.disks|, m.cores, m.qd)
  {
    && !d.Submit?
    && u in m.queues && N.Enabled(m.queues[u], d)
    && var w := WorldOf(m, u);
    && var w' := N.Apply(w, d);
    && m' == m.(pool := After(m.pool, u, w, d, w'), queues := m.queues[u := w'.q])
  }

  ghost predicate Step(m: Machine, e: Event, m': Machine)
    requires QueuesOk(m.queues, |m.pool.disks|, m.cores, m.qd)
  {
    match e
    case Host(h) => HostStep(m, h, m')
    case Issue(id, u) => IssueStep(m, id, u, m')
    case Poll(id, t) => PollStep(m, id, t, m')
    case Device(u, d) => DeviceStep(m, u, d, m')
  }

  /** The step of the pool that a step from m to m' amounts to; one that only moves inside the queues changes nothing. */
  function Seen(m: Machine, e: Event, m': Machine): S.Event {
    match e
    case Host(h) => h
    case Issue(id, u) => if u in m.queues then S.Issue(id, (u, |m.queues[u].log|)) else S.Client
    case Poll(_, _) => S.Client
    case Device(u, d) => if u in m.queues && u in m'.queues then SeenDevice(u, m.queues[u], d, m'.queues[u]) else S.Client
  }

  function SeenDevice(u: Qp, q: N.Queue, d: N.Event, q': N.Queue): S.Event {
    match d
    case Execute(k) => if k < |q'.log| && q'.log[k].stage.Executed? then S.Execute((u, k), q'.log[k].stage.data) else S.Client
    case Consume => if q.consumed < |q.posted| then S.Consume((u, q.posted[q.consumed])) else S.Client
    case _ => S.Client
  }

  // ---- every step of the machine is a step of the pool ----------------------------------

  lemma InitInv(m: Machine)
    requires Init(m)
    ensures Inv(m)
  {
    S.InitInv(m.pool);
    forall u | u in m.queues ensures N.Inv(m.queues[u]) && m.queues[u].log == [] && m.queues[u].n == m.qd {
      N.InitInv(m.queues[u], m.qd);
    }
  }

  /** A step of queue pair u concerns the history of its own requests only. */
  lemma TrackedStep(queues: map<Qp, N.Queue>, reqs: map<Key, Pending>, u: Qp, q: N.Queue, reqs': map<Key, Pending>)
    requires Tracked(queues, reqs) && u in queues
    requires forall k: Key {:trigger k in reqs'} {:trigger k in reqs} :: k.0 != u ==> (k in reqs' <==> k in reqs)
    requires forall k {:trigger reqs'[k]} :: k in reqs' && k.0 != u ==> reqs'[k] == reqs[k]
    requires forall k {:trigger reqs'[k]} :: k in reqs' && k.0 == u ==> k.1 < |q.log| && Match(reqs'[k], u.0, q.log[k.1])
    requires forall j: nat {:trigger q.log[j]} :: j < |q.log| && N.InFlight(q.log[j]) ==> (u, j) in reqs'
    ensures Tracked(queues[u := q], reqs')
  {
    var queues' := queues[u := q];
    forall k | k in reqs'
      ensures k.0 in queues' && k.1 < |queues'[k.0].log| && Match(reqs'[k], k.0.0, queues'[k.0].log[k.1])
    {
      if k.0 != u {
        assert k in reqs;
      }
    }
  }

  lemma RestageTracked(queues: map<Qp, N.Queue>, reqs: map<Key, Pending>, u: Qp, k: nat, q: N.Queue, r: Pending, e: N.Entry)
    requires Tracked(queues, reqs) && u in queues && k < |queues[u].log| && N.InFlight(queues[u].log[k])
    requires q.log == queues[u].log[k := e] && Match(r, u.0, e)
    ensures Tracked(queues[u := q], reqs[(u, k) := r])
  {
    var log := queues[u].log;
    forall j: nat | j < |q.log| && N.InFlight(q.log[j]) ensures (u, j) in reqs[(u, k) := r] {
      if j != k {
        assert N.InFlight(log[j]);
      }
    }
    TrackedStep(queues, reqs, u, q, reqs[(u, k) := r]);
  }

  /** A queue pair's step that carries out a request, seen from the pool. */
  lemma ExecuteSeen(queues: map<Qp, N.Queue>, reqs: map<Key, Pending>, u: Qp, w: N.World, k: nat, w': N.World)
    requires Tracked(queues, reqs) && u in queues && w.q == queues[u] && NS.ExecutedIn(w, k, w')
    ensures (u, k) in reqs && reqs[(u, k)].stage.Waiting? && reqs[(u, k)].did == u.0
    ensures var r, d, reqs' := reqs[(u, k)], w'.q.log[k].stage.data, Noted(reqs, u, w, N.Execute(k), w');
            && w.q.log[k].req == ReqOf(r)
            && reqs' == reqs[(u, k) := r.(stage := Executed(if r.write then [] else d))]
            && Tracked(queues[u := w'.q], reqs')
  {
    assert N.InFlight(queues[u].log[k]);
    var r := reqs[(u, k)];
    var d := w'.q.log[k].stage.data;
    RestageTracked(queues, reqs, u, k, w'.q, r.(stage := Executed(if r.write then [] else d)), w'.q.log[k]);
  }

  /** Inside the queue pair a request moves on without anyone else noticing. */
  lemma QuietSeen(queues: map<Qp, N.Queue>, reqs: map<Key, Pending>, u: Qp, w: N.World, k: nat, w': N.World)
    requires Tracked(queues, reqs) && u in queues && w.q == queues[u] && NS.MovedIn(w, k, w')
    ensures Tracked(queues[u := w'.q], reqs)
  {
    assert N.InFlight(queues[u].log[k]);
    var r := reqs[(u, k)];
    RestageTracked(queues, reqs, u, k, w'.q, r, w'.q.log[k]);
    assert reqs[(u, k) := r] == reqs;
  }

  lemma ConsumeSeen(queues: map<Qp, N.Queue>, reqs: map<Key, Pending>, u: Qp, w: N.World, k: nat, w': N.World)
    requires Tracked(queues, reqs) && u in queues && w.q == queues[u] && NS.ConsumedIn(w, k, w')
    ensures (u, k) in reqs && reqs[(u, k)].stage.Executed?
    ensures w.q.log[k].req == ReqOf(reqs[(u, k)])
    ensures !reqs[(u, k)].write ==> reqs[(u, k)].stage.got == w.q.log[k].stage.data
    ensures Tracked(queues[u := w'.q], reqs - {(u, k)})
  {
    assert N.InFlight(queues[u].log[k]);
    var reqs' := reqs - {(u, k)};
    forall j: nat | j < |w'.q.log| && N.InFlight(w'.q.log[j]) ensures (u, j) in reqs' {
      assert N.InFlight(queues[u].log[j]);
    }
    TrackedStep(queues, reqs, u, w'.q, reqs');
  }

  lemma SubmitSeen(queues: map<Qp, N.Queue>, reqs: map<Key, Pending>, u: Qp, r: Pending, q: N.Queue)
    requires Tracked(queues, reqs) && u in queues && r.stage.Waiting? && r.did == u.0
    requires exists cid :: q.log == queues[u].log + [N.Entry(ReqOf(r), cid, N.Queued)]
    ensures Tracked(queues[u := q], reqs[(u, |queues[u].log|) := r])
  {
    var k := (u, |queues[u].log|);
    forall j: nat | j < |q.log| && N.InFlight(q.log[j]) ensures (u, j) in reqs[k := r] {
      if j < |queues[u].log| {
        assert N.InFlight(queues[u].log[j]);
      }
    }
    TrackedStep(queues, reqs, u, q, reqs[k := r]);
  }

  lemma QueueKept(queues: map<Qp, N.Queue>, nd: nat, cores: nat, qd: nat, w: N.World, u: Qp, d: N.Event)
    requires QueuesOk(queues, nd, cores, qd) && u in queues && w.q == queues[u] && N.Inv(w.q) && N.Enabled(w.q, d)
    ensures QueuesOk(queues[u := N.Apply(w, d).q], nd, cores, qd)
  {
    N.ApplyInv(w, d);
  }

  // ---- tickets --------------------------------------------------------------------------

  /** The log only grows, and a request keeps its slot. */
  predicate CidsKept(q: N.Queue, q': N.Queue) {
    |q.log| <= |q'.log| && forall j {:trigger q'.log[j]} :: 0 <= j < |q.log| ==> q'.log[j].cid == q.log[j].cid
  }

  lemma TicketsKept(rid: Numbering, queues: map<Qp, N.Queue>, awaits: map<nat, set<Ticket>>, u: Qp, q: N.Queue)
    requires TicketsOk(rid, queues, awaits) && u in queues && CidsKept(queues[u], q)
    ensures TicketsOk(rid, queues[u := q], awaits)
  {
  }

  /** No request is new, and each is of the call it was of. */
  ghost predicate Fewer(reqs: map<Key, Pending>, reqs': map<Key, Pending>) {
    forall k {:trigger reqs'[k]} :: k in reqs' ==> k in reqs && reqs'[k].call == reqs[k].call && reqs'[k].o == reqs[k].o
  }

  /** A restaged request, or one less, is awaited as before. */
  lemma AwaitedKept(calls: map<nat, C.Call>, reqs: map<Key, Pending>, reqs': map<Key, Pending>, awaits: map<nat, set<Ticket>>,
                    last: map<nat, Key>)
    requires Awaited(calls, reqs, awaits) && LastOk(calls, reqs, last) && Fewer(reqs, reqs')
    ensures Awaited(calls, reqs', awaits) && LastOk(calls, reqs', last)
  {
  }

  lemma IssueTickets(rid: Numbering, queues: map<Qp, N.Queue>, calls: map<nat, C.Call>, reqs: map<Key, Pending>,
                     awaits: map<nat, set<Ticket>>, last: map<nat, Key>, id: nat, u: Qp, q: N.Queue, cid: nat, k: Key, r: Pending)
    requires TicketsOk(rid, queues, awaits) && Awaited(calls, reqs, awaits) && LastOk(calls, reqs, last)
    requires u in queues && CidsKept(queues[u], q) && k.0 == u && k.1 < |q.log| && q.log[k.1].cid == cid
    requires id in calls && calls[id].issued < calls[id].len && id in awaits && k !in reqs && r.call == id && r.o == calls[id].issued
    ensures TicketsOk(rid, queues[u := q], awaits[id := awaits[id] + {Ticket(rid(u, cid), u, k.1)}])
    ensures Awaited(calls[id := C.Advance(calls[id], r.wild)], reqs[k := r], awaits[id := awaits[id] + {Ticket(rid(u, cid), u, k.1)}])
    ensures LastOk(calls[id := C.Advance(calls[id], r.wild)], reqs[k := r], last[id := k])
  {
    var awaits' := awaits[id := awaits[id] + {Ticket(rid(u, cid), u, k.1)}];
    var reqs' := reqs[k := r];
    forall l | l in reqs' && reqs'[l].call in calls ensures Held(awaits', reqs'[l].call, l) {
      if l == k {
        assert Ticket(rid(u, cid), u, k.1) in awaits'[id];
      } else {
        var t :| t in awaits[reqs[l].call] && t.Request() == l;
        assert t in awaits'[reqs[l].call];
      }
    }
  }

  /** A request id leads back to its queue pair and slot, so a flag found there means that the request is over. */
  lemma PolledOver(queues: map<Qp, N.Queue>, nd: nat, cores: nat, qd: nat, reqs: map<Key, Pending>, t: Ticket)
    requires QueuesOk(queues, nd, cores, qd) && Tracked(queues, reqs) && cores > 0 && qd > 0
    requires TicketOk((u: Qp, cid: nat) => A.Rid(u.0, u.1, cid, cores, qd), queues, t)
    requires var p := A.Decode(t.rid, cores, qd);
             p.qid > 0 && (p.did, p.qid - 1) in queues &&
             p.cid < |queues[(p.did, p.qid - 1)].slots| && queues[(p.did, p.qid - 1)].slots[p.cid].flag == 1
    ensures t.Request() !in reqs
  {
    var u, k := t.qp, t.nth;
    var q := queues[u];
    NS.PollSound(q, k);
    A.RidRoundTrip(u.0, u.1, q.log[k].cid, cores, qd);
    assert (u.0, u.1) == u;
  }

  lemma PollTickets(rid: Numbering, queues: map<Qp, N.Queue>, calls: map<nat, C.Call>, reqs: map<Key, Pending>,
                    awaits: map<nat, set<Ticket>>, id: nat, t: Ticket)
    requires TicketsOk(rid, queues, awaits) && Awaited(calls, reqs, awaits) && id in awaits && t.Request() !in reqs
    ensures TicketsOk(rid, queues, awaits[id := awaits[id] - {t}]) && Awaited(calls, reqs, awaits[id := awaits[id] - {t}])
  {
    var awaits' := awaits[id := awaits[id] - {t}];
    forall k | k in reqs && reqs[k].call in calls ensures Held(awaits', reqs[k].call, k) {
      var s :| s in awaits[reqs[k].call] && s.Request() == k;
      assert s in awaits'[reqs[k].call];
    }
  }

  // ---- the steps refined ----------------------------------------------------------------

  lemma ExecuteStep(pool: S.State, queues: map<Qp, N.Queue>, u: Qp, w: N.World, k: nat, w': N.World)
    requires Tracked(queues, pool.reqs) && u in queues && u.0 < |pool.disks|
    requires w == N.World(queues[u], pool.disks[u.0], pool.mem) && NS.ExecutedIn(w, k, w')
    ensures S.Step(pool, S.Execute((u, k), w'.q.log[k].stage.data), After(pool, u, w, N.Execute(k), w'))
    ensures Tracked(queues[u := w'.q], After(pool, u, w, N.Execute(k), w').reqs) && CidsKept(queues[u], w'.q)
    ensures Fewer(pool.reqs, After(pool, u, w, N.Execute(k), w').reqs)
  {
    ExecuteSeen(queues, pool.reqs, u, w, k, w');
    assert pool.disks[u.0 := pool.disks[u.0]] == pool.disks;
  }

  lemma QuietStep(pool: S.State, queues: map<Qp, N.Queue>, u: Qp, w: N.World, d: N.Event, k: nat, w': N.World)
    requires Tracked(queues, pool.reqs) && u in queues && u.0 < |pool.disks| && (d.Fetch? || d.Post?)
    requires w == N.World(queues[u], pool.disks[u.0], pool.mem) && NS.MovedIn(w, k, w')
    ensures After(pool, u, w, d, w') == pool && S.Step(pool, S.Client, pool)
    ensures Tracked(queues[u := w'.q], pool.reqs) && CidsKept(queues[u], w'.q)
  {
    QuietSeen(queues, pool.reqs, u, w, k, w');
    assert pool.disks[u.0 := pool.disks[u.0]] == pool.disks;
  }

  lemma ConsumeStep(pool: S.State, queues: map<Qp, N.Queue>, u: Qp, w: N.World, k: nat, w': N.World)
    requires S.Inv(pool) && Tracked(queues, pool.reqs) && u in queues && u.0 < |pool.disks|
    requires w == N.World(queues[u], pool.disks[u.0], pool.mem) && NS.ConsumedIn(w, k, w')
    requires w.q.consumed < |w.q.posted| && k == w.q.posted[w.q.consumed]
    ensures S.Step(pool, S.Consume((u, k)), After(pool, u, w, N.Consume, w'))
    ensures Tracked(queues[u := w'.q], After(pool, u, w, N.Consume, w').reqs) && CidsKept(queues[u], w'.q)
    ensures Fewer(pool.reqs, After(pool, u, w, N.Consume, w').reqs)
  {
    hide S.Inv, Tracked;
    ConsumeSeen(queues, pool.reqs, u, w, k, w');
    S.ConsumeInv(pool, (u, k));
    assert pool.disks[u.0 := pool.disks[u.0]] == pool.disks;
  }

  /** What a queue pair's step leaves as it was: the tickets, and who awaits what. */
  lemma DeviceKept(m: Machine, u: Qp, d: N.Event, m': Machine)
    requires Kept(m) && DeviceStep(m, u, d, m') && u in m'.queues
    requires Tracked(m'.queues, m'.pool.reqs) && CidsKept(m.queues[u], m'.queues[u]) && Fewer(m.pool.reqs, m'.pool.reqs)
    ensures Kept(m')
  {
    QueueKept(m.queues, |m.pool.disks|, m.cores, m.qd, WorldOf(m, u), u, d);
    TicketsKept(Rids(m), m.queues, m.awaits, u, m'.queues[u]);
    AwaitedKept(m.pool.calls, m.pool.reqs, m'.pool.reqs, m.awaits, m.last);
  }

  lemma ExecuteRefines(m: Machine, u: Qp, k: nat, m': Machine)
    requires Kept(m) && DeviceStep(m, u, N.Execute(k), m')
    ensures k < |m'.queues[u].log| && m'.queues[u].log[k].stage.Executed?
    ensures S.Step(m.pool, S.Execute((u, k), m'.queues[u].log[k].stage.data), m'.pool)
    ensures Kept(m')
  {
    var w := WorldOf(m, u);
    NS.ExecuteEffect(w, k);
    ExecuteStep(m.pool, m.queues, u, w, k, N.Apply(w, N.Execute(k)));
    DeviceKept(m, u, N.Execute(k), m');
  }

  lemma ConsumeRefines(m: Machine, u: Qp, m': Machine)
    requires S.Inv(m.pool) && Kept(m) && DeviceStep(m, u, N.Consume, m')
    ensures m.queues[u].consumed < |m.queues[u].posted|
    ensures S.Step(m.pool, S.Consume((u, m.queues[u].posted[m.queues[u].consumed])), m'.pool)
    ensures Kept(m')
  {
    var w := WorldOf(m, u);
    NS.ConsumeEffect(w);
    ConsumeStep(m.pool, m.queues, u, w, w.q.posted[w.q.consumed], N.Apply(w, N.Consume));
    DeviceKept(m, u, N.Consume, m');
  }

  lemma QuietRefines(m: Machine, u: Qp, d: N.Event, m': Machine)
    requires Kept(m) && DeviceStep(m, u, d, m') && (d.Fetch? || d.Post?)
    ensures m'.pool == m.pool && S.Step(m.pool, S.Client, m'.pool)
    ensures Kept(m')
  {
    var w := WorldOf(m, u);
    var k := NS.QuietEffect(w, d);
    QuietStep(m.pool, m.queues, u, w, d, k, N.Apply(w, d));
    DeviceKept(m, u, d, m');
  }

  lemma DeviceRefines(m: Machine, u: Qp, d: N.Event, m': Machine)
    requires S.Inv(m.pool) && Kept(m) && DeviceStep(m, u, d, m')
    ensures S.Step(m.pool, SeenDevice(u, m.queues[u], d, m'.queues[u]), m'.pool)
    ensures Kept(m')
  {
    match d
    case Execute(k) =>
      ExecuteRefines(m, u, k, m');
      assert SeenDevice(u, m.queues[u], d, m'.queues[u]) == S.Execute((u, k), m'.queues[u].log[k].stage.data);
    case Consume =>
      ConsumeRefines(m, u, m');
      assert SeenDevice(u, m.queues[u], d, m'.queues[u]) == S.Consume((u, m.queues[u].posted[m.queues[u].consumed]));
    case _ => QuietRefines(m, u, d, m');
  }

  lemma IssueRefines(m: Machine, id: nat, u: Qp, m': Machine)
    requires Kept(m) && IssueStep(m, id, u, m')
    ensures S.Step(m.pool, S.Issue(id, (u, |m.queues[u].log|)), m'.pool)
    ensures Kept(m')
  {
    var q, k := m.queues[u], (u, |m.queues[u].log|);
    var r := m'.pool.reqs[k];
    QueueKept(m.queues, |m.pool.disks|, m.cores, m.qd, WorldOf(m, u), u, N.Submit(ReqOf(r)));
    SubmitSeen(m.queues, m.pool.reqs, u, r, m'.queues[u]);
    IssueTickets(Rids(m), m.queues, m.pool.calls, m.pool.reqs, m.awaits, m.last, id, u, m'.queues[u], q.sqTail, k, r);
  }

  /** What a call still awaits when it returns is at most its last request. */
  lemma EndRefines(calls: map<nat, C.Call>, reqs: map<Key, Pending>, awaits: map<nat, set<Ticket>>, last: map<nat, Key>, id: nat)
    requires Awaited(calls, reqs, awaits) && LastOk(calls, reqs, last) && id in calls && id in awaits
    requires calls[id].issued >= calls[id].len
    requires if calls[id].write then forall t :: t in awaits[id] ==> id in last && t.Request() == last[id] else awaits[id] == {}
    ensures forall k {:trigger reqs[k]} :: k in reqs && reqs[k].call == id ==> calls[id].write && !S.NotLast(calls[id], reqs[k])
  {
  }

  lemma EndSeen(m: Machine, id: nat, m': Machine)
    requires Kept(m) && HostStep(m, S.End(id), m')
    ensures S.Step(m.pool, S.End(id), m'.pool)
    ensures Kept(m')
  {
    EndRefines(m.pool.calls, m.pool.reqs, m.awaits, m.last, id);
  }

  lemma BeginTickets(rid: Numbering, queues: map<Qp, N.Queue>, calls: map<nat, C.Call>, reqs: map<Key, Pending>,
                     awaits: map<nat, set<Ticket>>, last: map<nat, Key>, id: nat, c: C.Call)
    requires TicketsOk(rid, queues, awaits) && Awaited(calls, reqs, awaits) && LastOk(calls, reqs, last)
    requires C.MayBegin(calls, reqs, id, c)
    ensures TicketsOk(rid, queues, awaits[id := {}]) && Awaited(calls[id := c], reqs, awaits[id := {}]) && LastOk(calls[id := c], reqs, last)
  {
    var awaits' := awaits[id := {}];
    forall k | k in reqs && reqs[k].call in calls[id := c] ensures Held(awaits', reqs[k].call, k) {
      var t :| t in awaits[reqs[k].call] && t.Request() == k;
      assert t in awaits'[reqs[k].call];
    }
  }

  lemma HostRefines(m: Machine, h: S.Event, m': Machine)
    requires Kept(m) && HostStep(m, h, m')
    ensures S.Step(m.pool, h, m'.pool)
    ensures Kept(m')
  {
    match h
    case End(id) => EndSeen(m, id, m');
    case Begin(id, write, file, pos, len, buf) =>
      BeginTickets(Rids(m), m.queues, m.pool.calls, m.pool.reqs, m.awaits, m.last, id, S.NewCall(m.pool.fs, write, file, pos, len, buf));
    case _ =>
  }

  lemma PollKept(m: Machine, id: nat, t: Ticket, m': Machine)
    requires Kept(m) && PollStep(m, id, t, m')
    ensures m'.pool == m.pool && Kept(m')
  {
    assert TicketOk(Rids(m), m.queues, t);
    PolledOver(m.queues, |m.pool.disks|, m.cores, m.qd, m.pool.reqs, t);
    PollTickets(Rids(m), m.queues, m.pool.calls, m.pool.reqs, m.awaits, id, t);
  }

  /** Every step of the machine is a step of the pool. */
  lemma StepRefines(m: Machine, e: Event, m': Machine)
    requires Inv(m) && Step(m, e, m')
    ensures S.Step(m.pool, Seen(m, e, m'), m'.pool)
    ensures Kept(m')
  {
    match e
    case Host(h) => HostRefines(m, h, m');
    case Issue(id, u) => IssueRefines(m, id, u, m');
    case Poll(id, t) =>
      PollKept(m, id, t, m');
      S.Idle(m.pool);
    case Device(u, d) => DeviceRefines(m, u, d, m');
  }

  // ---- runs -----------------------------------------------------------------------------

  /** Event i takes the i-th state to the next. */
  ghost predicate StepAt(ms: seq<Machine>, es: seq<Event>, i: nat)
    requires i < |es| < |ms|
  {
    Inv(ms[i]) ==> Step(ms[i], es[i], ms[i + 1])
  }

  ghost predicate Run(ms: seq<Machine>, es: seq<Event>) {
    && |ms| == |es| + 1
    && Init(ms[0])
    && forall i: nat {:trigger StepAt(ms, es, i)} :: i < |es| ==> StepAt(ms, es, i)
  }

  lemma StepInv(m: Machine, e: Event, m': Machine)
    requires Inv(m) && Step(m, e, m')
    ensures S.Step(m.pool, Seen(m, e, m'), m'.pool)
    ensures Inv(m')
  {
    StepRefines(m, e, m');
    S.StepInv(m.pool, Seen(m, e, m'), m'.pool);
  }

  lemma {:induction false} RunInv(ms: seq<Machine>, es: seq<Event>, i: nat)
    requires Run(ms, es) && i <= |es|
    ensures Inv(ms[i])
  {
    hide Init, Inv, Step;
    if i == 0 {
      InitInv(ms[0]);
    } else {
      RunInv(ms, es, i - 1);
      assert StepAt(ms, es, i - 1);
      StepInv(ms[i - 1], es[i - 1], ms[i]);
    }
  }

  function Pools(ms: seq<Machine>): (ss: seq<S.State>)
    ensures |ss| == |ms|
  {
    seq(|ms|, i requires 0 <= i < |ms| => ms[i].pool)
  }

  function PoolEvents(ms: seq<Machine>, es: seq<Event>): (ps: seq<S.Event>)
    requires |ms| == |es| + 1
    ensures |ps| == |es|
  {
    seq(|es|, i requires 0 <= i < |es| => Seen(ms[i], es[i], ms[i + 1]))
  }

  lemma RunStep(ms: seq<Machine>, es: seq<Event>, i: nat)
    requires Run(ms, es) && i < |es|
    ensures S.Step(ms[i].pool, Seen(ms[i], es[i], ms[i + 1]), ms[i + 1].pool)
  {
    RunInv(ms, es, i);
    assert StepAt(ms, es, i);
    StepInv(ms[i], es[i], ms[i + 1]);
  }

  /** Every run of the machine is, step by step, a run of the pool. */
  lemma RunRefines(ms: seq<Machine>, es: seq<Event>)
    requires Run(ms, es)
    ensures R.Run(Pools(ms), PoolEvents(ms, es))
  {
    forall i: nat | i < |es| ensures R.StepAt(Pools(ms), PoolEvents(ms, es), i) {
      RunStep(ms, es, i);
      PoolStep(ms, es, i);
    }
  }

  lemma PoolStep(ms: seq<Machine>, es: seq<Event>, i: nat)
    requires |ms| == |es| + 1 && i < |es| && S.Step(ms[i].pool, Seen(ms[i], es[i], ms[i + 1]), ms[i + 1].pool)
    ensures R.StepAt(Pools(ms), PoolEvents(ms, es), i)
  {
  }
}
