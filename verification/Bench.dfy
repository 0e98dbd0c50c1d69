/** Runs of the machine built step by step: one drive, one core and one file; the queue pair is of any depth from 2 on. */
module Bench {
  import opened Memory
  import opened Sizes
  import opened Machine
  import V = Volume
  import N = NvmeQueue
  import NS = NvmeSafety
  import Service
  import A = Addressing
  import M = Modular
  import C = Calls
  import S = Stack
  import L = Locate
  import Y = Layout
  import F = Myfs
  import H = HookIo

  const U: Qp := (0, 0)

  /** One named file with a table of `big` entries, and a ring for as many blocks. */
  predicate OneFile(fs: F.FS, big: nat) {
    && |fs.files| == 1 && fs.files[0].name != "" && |fs.files[0].block| == big && |fs.free| == big + 1
  }

  ghost predicate Base(m: Machine) {
    && Inv(m) && m.cores == 1 && |m.pool.disks| == 1 && U in m.queues && m.queues[U].n == m.qd
    && m.qd >= 2 && Service.CleanTail(m.queues[U]) && OneFile(m.pool.fs, Entries(m))
  }

  /** The size of the file's table. */
  function Entries(m: Machine): nat {
    if |m.pool.fs.files| == 1 then |m.pool.fs.files[0].block| else 0
  }

  predicate SameSize(m: Machine, m': Machine) {
    m'.qd == m.qd && Entries(m') == Entries(m)
  }

  // ---- issuing --------------------------------------------------------------------------

  lemma NextBlock(x: nat, h: nat, big: nat)
    requires x < big && (x == 0 || (x - 1) / F.BLOCK_SIZE < h)
    ensures x / F.BLOCK_SIZE < big && x / F.BLOCK_SIZE <= h
  {
    M.DivBounds(x, F.BLOCK_SIZE, big);
    M.DivBounds(x, F.BLOCK_SIZE, h + 1);
    if x > 0 {
      M.DivBounds(x - 1, F.BLOCK_SIZE, h);
    }
  }

  lemma FreeLeft(fs: F.FS, big: nat)
    requires F.Conserved(fs) && OneFile(fs, big) && fs.files[0].nBlock < big
    ensures F.FreeCount(fs.rp, fs.wp, |fs.free|) > 0
  {
    assert F.SumBlocks(fs.files, 1) == F.SumBlocks(fs.files, 0) + F.HeldBy(fs.files[0]);
  }

  /** The ring holds a block for every entry still free, so a write that leaves no hole can be translated. */
  lemma Room(fs: F.FS, big: nat, x: nat)
    requires F.Conserved(fs) && fs.rp < |fs.free| && fs.wp < |fs.free|
    requires OneFile(fs, big) && x < big && (x == 0 || Y.Allocated(fs, 0, x - 1))
    ensures L.Allocates(fs, 0, x)
  {
    hide F.Conserved;
    NextBlock(x, fs.files[0].nBlock, big);
    if fs.files[0].block[x / F.BLOCK_SIZE] == F.INACTIVE {
      F.NotInTable(fs, 0, x / F.BLOCK_SIZE);
      FreeLeft(fs, big);
    }
  }

  lemma OneDrive(fs: F.FS, big: nat, x: nat, write: bool, fs': F.FS, did: nat, dlba: nat)
    requires OneFile(fs, big) && L.Found(fs, 1, 0, x, write, fs', did, dlba)
    ensures did == 0 && OneFile(fs', big)
  {
    A.RaidInjective(F.GetLba(fs, 0, x, write).1.value, 1);
  }

  /** A call's next request leaves no hole if it is a write, and has a buffer if it is a read. */
  ghost predicate Ready(at: Y.Places, c: C.Call, big: nat) {
    && c.file == 0 && c.issued < c.len && c.pos + c.issued < big
    && if c.write then c.pos + c.issued == 0 || (0, c.pos + c.issued - 1) in at else c.buf + c.issued != N.NULL
  }

  lemma ReadyFinds(fs: F.FS, calls: map<nat, C.Call>, id: nat, big: nat) returns (fs': F.FS, did: nat, dlba: nat)
    requires F.Conserved(fs) && OneFile(fs, big) && S.FilesOk(fs, calls) && id in calls && Ready(Y.PlacesOf(fs, 1), calls[id], big)
    ensures var c := calls[id];
            && (c.write ==> L.Allocates(fs, 0, c.pos + c.issued))
            && L.Found(fs, 1, 0, c.pos + c.issued, c.write, fs', did, dlba) && did == 0 && OneFile(fs', big)
  {
    hide L.Found, L.Allocates, Y.Loc;
    var c := calls[id];
    assert S.FileFits(fs, c);
    if c.write {
      Room(fs, big, c.pos + c.issued);
    }
    fs', did, dlba := L.Finds(fs, 1, 0, c.pos + c.issued, c.write);
    OneDrive(fs, big, c.pos + c.issued, c.write, fs', did, dlba);
  }

  lemma NextValid(id: nat, c: C.Call, mem: Store, did: nat, dlba: nat, wild: iset<int>)
    requires C.CallOk(c) && c.issued < c.len && (!c.write ==> c.buf + c.issued != N.NULL)
    ensures N.ValidReq(ReqOf(C.NextReq(id, c, mem, did, dlba, wild)))
  {
    C.NextFits(c, wild);
  }

  /** The next request of a call on the file goes out. */
  ghost function Sent(s: S.State, id: nat, k: V.Key, fs': F.FS, r: V.Pending): S.State
    requires id in s.calls && s.calls[id].issued < s.calls[id].len
  {
    s.(fs := fs', calls := s.calls[id := C.Advance(s.calls[id], r.wild)], reqs := s.reqs[k := r],
       spec := if s.calls[id].write then V.SpecWrite(s.spec, r.file, r.off, r.data, SECTOR * r.nblk, r.wild) else s.spec)
  }

  lemma IsIssue(s: S.State, id: nat, k: V.Key, fs': F.FS, r: V.Pending)
    requires |s.disks| == 1 && id in s.calls && s.calls[id].issued < s.calls[id].len && k !in s.reqs
    requires var c := s.calls[id];
             && (c.write ==> L.Allocates(s.fs, c.file, c.pos + c.issued))
             && L.Found(s.fs, 1, c.file, c.pos + c.issued, c.write, fs', r.did, r.dlba)
             && r.wild == V.WildIn(Y.PlacesOf(fs', 1), s.reqs, c.file, c.pos + c.issued, SECTOR * C.Ch(c).nblk)
             && r == C.NextReq(id, c, s.mem, r.did, r.dlba, r.wild)
    ensures S.Issues(s, id, k, Sent(s, id, k, fs', r))
  {
  }

  lemma PoolIssue(s: S.State, id: nat, k: V.Key, big: nat) returns (fs': F.FS, r: V.Pending)
    requires F.Conserved(s.fs) && S.FilesOk(s.fs, s.calls) && |s.disks| == 1 && OneFile(s.fs, big)
    requires id in s.calls && C.CallOk(s.calls[id]) && k !in s.reqs && Ready(Y.PlacesOf(s.fs, 1), s.calls[id], big)
    ensures S.Issues(s, id, k, Sent(s, id, k, fs', r)) && r.did == 0 && N.ValidReq(ReqOf(r)) && OneFile(fs', big)
  {
    hide F.Conserved, L.Found, L.Allocates, C.CallOk, V.WildIn, N.ValidReq, C.Ch, H.ChunkAt;
    var c := s.calls[id];
    var did, dlba;
    fs', did, dlba := ReadyFinds(s.fs, s.calls, id, big);
    var wild := V.WildIn(Y.PlacesOf(fs', 1), s.reqs, 0, c.pos + c.issued, SECTOR * C.Ch(c).nblk);
    NextValid(id, c, s.mem, did, dlba, wild);
    r := C.NextReq(id, c, s.mem, did, dlba, wild);
    IsIssue(s, id, k, fs', r);
  }

  lemma IssueReady(m: Machine, id: nat) returns (fs': F.FS, r: V.Pending)
    requires Base(m) && id in m.pool.calls && Service.OnlyLast(m.queues[U]) && Ready(S.At(m.pool), m.pool.calls[id], Entries(m))
    ensures var q, k := m.queues[U], (U, |m.queues[U].log|);
            && S.Issues(m.pool, id, k, Sent(m.pool, id, k, fs', r)) && r.did == 0 && OneFile(fs', Entries(m))
            && N.Enabled(q, N.Submit(ReqOf(r)))
  {
    var k := (U, |m.queues[U].log|);
    assert k !in m.pool.reqs;
    Service.TailFree(m.queues[U]);
    fs', r := PoolIssue(m.pool, id, k, Entries(m));
  }

  lemma Basics(m: Machine)
    requires Base(m)
    ensures Inv(m) && |m.pool.disks| == 1 && U in m.queues && QueuesOk(m.queues, 1, m.cores, m.qd)
    ensures N.Inv(m.queues[U]) && m.queues[U].n == m.qd && Service.CleanTail(m.queues[U]) && m.qd >= 2
  {
  }

  lemma GoIssue(m: Machine, id: nat) returns (m': Machine)
    requires Base(m) && id in m.pool.calls && id in m.awaits
    requires Service.OnlyLast(m.queues[U]) && Ready(S.At(m.pool), m.pool.calls[id], Entries(m))
    ensures IssueStep(m, id, U, m') && Base(m') && SameSize(m, m')
    ensures var q, q' := m.queues[U], m'.queues[U];
            q'.fetched == q.fetched && |q'.log| == |q.log| + 1 && q'.log[..|q.log|] == q.log
    ensures (U, |m.queues[U].log|) in m'.pool.reqs
    ensures m'.pool.reqs[(U, |m.queues[U].log|)].write && |m.queues[U].log| < m.qd ==>
              Service.Loaded(m'.queues[U], |m.queues[U].log|, m'.pool.reqs[(U, |m.queues[U].log|)].data)
  {
    hide Inv, S.Issues, Ready, N.ValidReq, QueuesOk;
    Basics(m);
    var k := (U, |m.queues[U].log|);
    var fs', r := IssueReady(m, id);
    var q := m.queues[U];
    m' := m.(pool := Sent(m.pool, id, k, fs', r), queues := m.queues[U := N.DoSubmit(q, ReqOf(r))],
             awaits := m.awaits[id := m.awaits[id] + {Ticket(Rids(m)(U, q.sqTail), U, |q.log|)}], last := m.last[id := k]);
    StepInv(m, Issue(id, U), m');
    Service.CleanKept(WorldOf(m, U), N.Submit(ReqOf(r)));
    if r.write && |q.log| < m.qd {
      Service.SubmitLoads(q, ReqOf(r));
    }
  }

  lemma Extend(ms: seq<Machine>, es: seq<Event>, e: Event, m: Machine)
    requires Run(ms, es) && Inv(ms[|es|]) && Step(ms[|es|], e, m)
    ensures Run(ms + [m], es + [e])
  {
    hide Inv, Step;
    var ms', es' := ms + [m], es + [e];
    forall i: nat | i < |es'| ensures StepAt(ms', es', i) {
      if i < |es| {
        assert StepAt(ms, es, i);
      }
    }
  }

  // ---- the device's steps ---------------------------------------------------------------

  /** A step of the queue pair, and that the machine goes on as before. */
  lemma Go(m: Machine, d: N.Event) returns (m': Machine)
    requires Base(m) && N.Enabled(m.queues[U], d) && !d.Submit?
    ensures DeviceStep(m, U, d, m') && Base(m') && SameSize(m, m')
    ensures var w := WorldOf(m, U);
            m' == m.(pool := After(m.pool, U, w, d, N.Apply(w, d)), queues := m.queues[U := N.Apply(w, d).q])
    ensures S.Step(m.pool, SeenDevice(U, m.queues[U], d, m'.queues[U]), m'.pool)
  {
    var w := WorldOf(m, U);
    m' := m.(pool := After(m.pool, U, w, d, N.Apply(w, d)), queues := m.queues[U := N.Apply(w, d).q]);
    StepInv(m, Device(U, d), m');
    Service.CleanKept(w, d);
  }

  /** Request k came to another stage, and nothing else about the requests changed. */
  predicate Restaged(q: N.Queue, k: nat, q': N.Queue) {
    && k < |q.log| == |q'.log| && q'.log == q.log[k := q.log[k].(stage := q'.log[k].stage)]
    && q'.fetched == q.fetched
  }

  lemma GoFetch(m: Machine) returns (m': Machine)
    requires Base(m) && m.queues[U].fetched < |m.queues[U].log| < m.queues[U].fetched + m.qd
    ensures DeviceStep(m, U, N.Fetch, m') && Base(m')
    ensures m'.pool == m.pool && m'.awaits == m.awaits && m'.last == m.last && SameSize(m, m')
    ensures var q, q' := m.queues[U], m'.queues[U];
            && q'.fetched == q.fetched + 1 && q'.slots == q.slots && |q'.log| == |q.log|
            && q'.log[q.fetched].stage.Fetched?
            && q'.log == q.log[q.fetched := q.log[q.fetched].(stage := q'.log[q.fetched].stage)]
  {
    Service.FetchReady(m.queues[U]);
    N.FetchSees(m.queues[U]);
    m' := Go(m, N.Fetch);
    QuietRefines(m, U, N.Fetch, m');
  }

  /** A fetched request is carried out. */
  lemma GoExecute(m: Machine, k: nat) returns (m': Machine)
    requires Base(m) && k < |m.queues[U].log| && m.queues[U].log[k].stage.Fetched?
    ensures DeviceStep(m, U, N.Execute(k), m') && Base(m')
    ensures m'.awaits == m.awaits && m'.last == m.last && SameSize(m, m')
    ensures Restaged(m.queues[U], k, m'.queues[U]) && m'.queues[U].log[k].stage.Executed?
    ensures var sectors := m'.queues[U].log[k].stage.data;
            S.CanExecute(m.pool, (U, k), sectors) && m'.pool == S.Executes(m.pool, (U, k), sectors)
  {
    m' := Go(m, N.Execute(k));
    Service.ExecuteMoves(WorldOf(m, U), k);
    var sectors := m'.queues[U].log[k].stage.data;
    assert SeenDevice(U, m.queues[U], N.Execute(k), m'.queues[U]) == S.Execute((U, k), sectors);
  }

  lemma LoadedGoes(m: Machine, k: nat, m': Machine, data: seq<byte>)
    requires Base(m) && DeviceStep(m, U, N.Execute(k), m') && Service.Loaded(m.queues[U], k, data)
    ensures k < |m'.queues[U].log|
    ensures var s := m'.queues[U].log[k].stage;
            s.Executed? && s.data == data + Service.Zeros(SECTOR * m.queues[U].log[k].req.nblk - |data|)
  {
    Service.LoadedGoes(WorldOf(m, U), k, data);
  }

  lemma GoPost(m: Machine, k: nat) returns (m': Machine)
    requires Base(m) && k < |m.queues[U].log| && m.queues[U].log[k].stage.Executed?
    ensures DeviceStep(m, U, N.Post(k), m') && Base(m')
    ensures m'.pool == m.pool && m'.awaits == m.awaits && m'.last == m.last && SameSize(m, m')
    ensures Restaged(m.queues[U], k, m'.queues[U]) && m'.queues[U].log[k].stage.Posted?
  {
    m' := Go(m, N.Post(k));
    QuietRefines(m, U, N.Post(k), m');
    Service.PostMoves(WorldOf(m, U), k);
  }

  /** The only posted request is consumed. */
  lemma GoConsume(m: Machine, k: nat) returns (m': Machine)
    requires Base(m) && k < |m.queues[U].log| && m.queues[U].log[k].stage.Posted?
    requires forall j {:trigger m.queues[U].log[j]} :: 0 <= j < |m.queues[U].log| && j != k ==> !m.queues[U].log[j].stage.Posted?
    ensures DeviceStep(m, U, N.Consume, m') && Base(m')
    ensures m'.awaits == m.awaits && m'.last == m.last && SameSize(m, m')
    ensures Restaged(m.queues[U], k, m'.queues[U]) && m'.queues[U].log[k].stage.Consumed?
    ensures Service.Flagged(m'.queues[U], k)
    ensures S.Step(m.pool, S.Consume((U, k)), m'.pool)
  {
    Service.ConsumeReady(m.queues[U], k);
    Service.ConsumeMoves(WorldOf(m, U), k);
    m' := Go(m, N.Consume);
    assert SeenDevice(U, m.queues[U], N.Consume, m'.queues[U]) == S.Consume((U, k));
  }

  /** The host sees that flag. */
  lemma GoPoll(m: Machine, id: nat, t: Ticket) returns (m': Machine)
    requires Base(m) && id in m.awaits && t in m.awaits[id] && t.qp == U && Service.Flagged(m.queues[U], t.nth)
    ensures PollStep(m, id, t, m') && Base(m') && m' == m.(awaits := m.awaits[id := m.awaits[id] - {t}])
    ensures SameSize(m, m')
  {
    var cid := m.queues[U].log[t.nth].cid;
    assert TicketOk(Rids(m), m.queues, t);
    A.RidRoundTrip(0, 0, cid, m.cores, m.qd);
    m' := m.(awaits := m.awaits[id := m.awaits[id] - {t}]);
    StepInv(m, Poll(id, t), m');
  }
}
