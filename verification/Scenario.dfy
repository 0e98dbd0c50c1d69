/** Runs in which a write returns, for every position, length and buffer. */
module Scenario {
  import opened Memory
  import opened Sizes
  import opened Wrappers
  import opened Machine
  import opened Bench
  import opened Rounds
  import opened Workload
  import V = Volume
  import N = NvmeQueue
  import NS = NvmeSafety
  import Service
  import C = Calls
  import S = Stack
  import R = ReadAfterWrite
  import E = EndToEnd
  import Y = Layout
  import F = Myfs
  import H = HookIo
  import M = Modular

  // ---- the calls' beginnings and ends ---------------------------------------------------

  function FreshSlot(i: nat): N.SlotState {
    N.SlotState(2, N.NULL, 0, N.Sqe(N.Read, 0, 0, 0, i), Service.Zeros(BLKSZ), -1)
  }

  function FreshQueue(qd: nat): N.Queue {
    N.Queue(qd, 0, 0, seq(qd, i requires i >= 0 => FreshSlot(i)), 0, 1, seq(qd, _ => N.Cqe(0, 0)), 0, 0, 1, [], 0, [], 0)
  }

  function FreshFs(big: nat): F.FS {
    F.FS(seq(big + 1, i => i), 0, big, [F.File("", seq(big, _ => F.INACTIVE), 0, false, false, 0)])
  }

  /** One drive full of zeros, one core, one file record; a block for each of its table's entries. */
  function Fresh(mem: Store, qd: nat, big: nat): Machine {
    Machine(S.State(FreshFs(big), [_ => 0], mem, map[], map[], (i: nat, x: int) => None), 1, qd, map[U := FreshQueue(qd)], map[], map[])
  }

  lemma FreshInit(mem: Store, qd: nat, big: nat)
    requires qd > 0
    ensures Init(Fresh(mem, qd, big))
  {
    assert N.Init(FreshQueue(qd), qd);
  }

  function Opened(m: Machine): Machine
    requires F.OpenSlot(m.pool.fs.files, "f") < |m.pool.fs.files|
  {
    m.(pool := m.pool.(fs := m.pool.fs.(files := F.OpenFiles(m.pool.fs.files, "f"))))
  }

  lemma Start(mem: Store, qd: nat, big: nat) returns (t: Trace)
    requires qd >= 2
    ensures Ok(t) && Steady(Now(t)) && Now(t).qd == qd && Entries(Now(t)) == big && t.es == [Host(S.Open("f"))]
    ensures Now(t).pool.mem == mem && Now(t).pool.calls == map[] && Now(t).pool.reqs == map[] && Now(t).queues[U].log == []
  {
    hide Init, Inv, QueuesOk, Step;
    var m := Fresh(mem, qd, big);
    FreshInit(mem, qd, big);
    InitInv(m);
    FreshOpens(mem, qd, big);
    assert QueuesOk(m.queues, |m.pool.disks|, m.cores, m.qd) by { InvQueues(m); }
    StepInv(m, Host(S.Open("f")), Opened(m));
    t := Add(Trace([m], []), Host(S.Open("f")), Opened(m));
  }

  lemma InvQueues(m: Machine)
    requires Inv(m)
    ensures QueuesOk(m.queues, |m.pool.disks|, m.cores, m.qd)
  {
  }

  lemma FreshOpens(mem: Store, qd: nat, big: nat)
    requires qd > 0
    ensures var m := Fresh(mem, qd, big);
            && F.OpenSlot(m.pool.fs.files, "f") == 0
            && (QueuesOk(m.queues, 1, 1, qd) ==> Step(m, Host(S.Open("f")), Opened(m)))
            && Service.CleanTail(FreshQueue(qd)) && OneFile(Opened(m).pool.fs, big)
  {
    var m := Fresh(mem, qd, big);
    assert F.FirstMatch(m.pool.fs.files, "f", 0) == 1 && F.FirstEmpty(m.pool.fs.files, 0) == 0;
  }

  lemma BeginCall(t: Trace, id: nat, write: bool, pos: nat, len: nat, buf: int) returns (t': Trace)
    requires Ok(t) && Steady(Now(t))
    requires C.MayBegin(Now(t).pool.calls, Now(t).pool.reqs, id, S.NewCall(Now(t).pool.fs, write, 0, pos, len, buf))
    ensures Ok(t') && Steady(Now(t')) && SameSize(Now(t), Now(t')) && t' == Trace(t.ms + [Now(t')], t.es + [Host(S.Begin(id, write, 0, pos, len, buf))])
    ensures var m := Now(t);
            Now(t') == m.(pool := m.pool.(calls := m.pool.calls[id := S.NewCall(m.pool.fs, write, 0, pos, len, buf)]),
                          awaits := m.awaits[id := {}])
  {
    var m := Now(t);
    var m' := m.(pool := m.pool.(calls := m.pool.calls[id := S.NewCall(m.pool.fs, write, 0, pos, len, buf)]), awaits := m.awaits[id := {}]);
    StepInv(m, Host(S.Begin(id, write, 0, pos, len, buf)), m');
    t' := Add(t, Host(S.Begin(id, write, 0, pos, len, buf)), m');
  }

  lemma EndCall(t: Trace, id: nat) returns (t': Trace)
    requires Ok(t) && Steady(Now(t)) && id in Now(t).pool.calls && Returns(Now(t), id)
    ensures Ok(t') && Steady(Now(t')) && SameSize(Now(t), Now(t')) && t' == Trace(t.ms + [Now(t')], t.es + [Host(S.End(id))])
    ensures Now(t') == Now(t).(pool := Now(t).pool.(calls := Now(t).pool.calls - {id}))
  {
    var m := Now(t);
    var m' := m.(pool := m.pool.(calls := m.pool.calls - {id}));
    StepInv(m, Host(S.End(id)), m');
    t' := Add(t, Host(S.End(id)), m');
  }

  // ---- a file with known content --------------------------------------------------------

  /** Page-sized requests up to here end in one that begins beyond pos + len. */
  function Span(pos: nat, len: nat): nat {
    BLKSZ * ((pos + len) / BLKSZ + 2)
  }

  /** More than the number of all calls' requests, and of the blocks they need. */
  function Depth(pos: nat, len: nat): nat {
    2 * Span(pos, len) + 10
  }

  /** The buffer of a write holds 2, the rest of the host's memory 1. */
  function Ink(buf: int, len: nat): Store {
    x => if buf <= x < buf + len then 2 else 1
  }

  lemma SpanFits(pos: nat, len: nat)
    ensures H.WriteSize(0, Span(pos, len)) == BLKSZ && pos + len < R.LastOff(0, Span(pos, len)) < Span(pos, len)
  {
    var k := (pos + len) / BLKSZ + 2;
    M.DivModUnique(Span(pos, len), BLKSZ, k, 0);
    M.DivModUnique(Span(pos, len) - 1, BLKSZ, k - 1, BLKSZ - 1);
  }

  /** Unlinks nothing, and is not the return of a write whose last request covers a byte of the file below z. */
  ghost predicate Harmless(m: Machine, e: Event, z: nat) {
    !(e.Host? && e.e.Unlink?) && forall x {:trigger E.TailReturns(m, e, 0, x)} :: 0 <= x < z ==> !E.TailReturns(m, e, 0, x)
  }

  ghost predicate Clean(t: Trace, z: nat) {
    |t.ms| == |t.es| + 1 && forall j {:trigger t.es[j]} :: 0 <= j < |t.es| ==> Harmless(t.ms[j], t.es[j], z)
  }

  lemma CleanLater(t: Trace, t': Trace, id: nat, write: bool, z: nat)
    requires Clean(t, z) && Later(t, t', id, write)
    ensures Clean(t', z)
  {
    forall j | 0 <= j < |t'.es| ensures Harmless(t'.ms[j], t'.es[j], z) {
      if j < |t.es| {
        assert t'.es[j] == t.es[j] && t'.ms[j] == t.ms[j];
      } else {
        assert Mine(t'.ms[j], t'.es[j], id, write);
      }
    }
  }

  lemma CleanThen(t: Trace, m: Machine, e: Event, z: nat)
    requires Clean(t, z) && Harmless(Now(t), e, z)
    ensures Clean(Trace(t.ms + [m], t.es + [e]), z)
  {
  }

  ghost predicate Idle(m: Machine) {
    m.pool.calls == map[] && m.pool.reqs == map[]
  }

  /** The byte is 1, by the byte map and on the drive. */
  ghost predicate One(s: S.State, x: int) {
    Stands(s, x, 1) && s.spec(0, x) == Some(1)
  }

  /** Nothing is under way, and the file has 1 in every byte below the span. */
  ghost predicate Prepared(t: Trace, pos: nat, len: nat, buf: int, qd: nat) {
    && Ok(t) && Clean(t, pos + len) && Steady(Now(t)) && Idle(Now(t))
    && Now(t).qd == qd && Entries(Now(t)) == Depth(pos, len) && NS.AllOver(Now(t).queues[U]) && Now(t).pool.mem == Ink(buf, len) && |Now(t).queues[U].log| <= Span(pos, len)
    && forall x {:trigger One(Now(t).pool, x)} :: 0 <= x < Span(pos, len) ==> One(Now(t).pool, x)
  }

  lemma FirstGoes(t: Trace, pos: nat, len: nat, buf: int) returns (t': Trace)
    requires Ok(t) && Steady(Now(t)) && Idle(Now(t)) && Now(t).queues[U].log == [] && Entries(Now(t)) == Depth(pos, len)
    ensures Ok(t') && Steady(Now(t')) && SameSize(Now(t), Now(t')) && Going(Now(t'), 0) && Now(t').awaits[0] == {}
    ensures Now(t').pool.mem == Now(t).pool.mem && Now(t').queues == Now(t).queues && Now(t').pool.reqs == map[]
    ensures Now(t').pool.calls == map[0 := C.Call(true, 0, 0, Span(pos, len), buf, 0, iset{})]
    ensures t' == Trace(t.ms + [Now(t')], t.es + [Host(S.Begin(0, true, 0, 0, Span(pos, len), buf))])
  {
    hide Base, Calm, Run, S.At;
    Basics(Now(t));
    t' := BeginCall(t, 0, true, 0, Span(pos, len), buf);
  }

  /** A write whose requests are all over has made the file what its buffer holds, on the drive and in the byte map. */
  lemma AllWritten(s: S.State, id: nat, x: int)
    requires S.Inv(s) && id in s.calls && s.reqs == map[] && Filled(s, s.calls[id])
    requires var c := s.calls[id];
             && c.write && c.file == 0 && c.wild == iset{} && c.issued >= c.len && c.pos <= x < c.pos + c.len && s.mem(c.buf + x - c.pos) == 1
    ensures One(s, x)
  {
    hide S.Core, C.OwnersOk, C.Clear, C.CallsOk, F.Conserved, S.FilesOk, S.At;
    R.Returns(s.calls, s.reqs, s.mem, s.spec, id, x);
    assert Has(s, s.calls[id], x);
  }

  lemma EndOnes(s: S.State, id: nat, s': S.State, x: int)
    requires One(s, x) && s' == s.(calls := s.calls - {id})
    ensures One(s', x)
  {
  }

  lemma EndHarmless(m: Machine, id: nat, z: nat)
    requires id in m.pool.calls && (m.pool.calls[id].len > 0 ==> z <= m.pool.calls[id].pos + R.LastOff(m.pool.calls[id].pos, m.pool.calls[id].len))
    ensures Harmless(m, Host(S.End(id)), z)
  {
  }

  lemma Prepare(pos: nat, len: nat, buf: int, qd: nat) returns (t: Trace)
    requires qd >= 2
    ensures Prepared(t, pos, len, buf, qd)
  {
    hide Base, Calm, Run, Entries, NS.AllOver, S.At, Going, Wrote, Filled, S.Inv, Later, Stands, R.LastOff, Harmless, E.TailReturns, One, Clean;
    var z, n := pos + len, Span(pos, len);
    SpanFits(pos, len);
    var t0 := Start(Ink(buf, len), qd, Depth(pos, len));
    Basics(Now(t0));
    OpenClean(t0, z);
    var t1 := FirstGoes(t0, pos, len, buf + len);
    Basics(Now(t1));
    BeginClean(t0, t1, z);
    var t2 := WriteOn(t1, 0, true, false);
    Basics(Now(t2));
    CleanLater(t1, t2, 0, true, z);
    WroteFields(Now(t1).pool, 0, Now(t2).pool, false);
    PoolInv(Now(t2));
    EndHarmless(Now(t2), 0, z);
    t := EndCall(t2, 0);
    CleanThen(t2, Now(t), Host(S.End(0)), z);
    forall x | 0 <= x < n ensures One(Now(t).pool, x) {
      AllWritten(Now(t2).pool, 0, x);
      EndOnes(Now(t2).pool, 0, Now(t).pool, x);
    }
  }

  lemma OpenClean(t: Trace, z: nat)
    requires |t.ms| == 2 && t.es == [Host(S.Open("f"))]
    ensures Clean(t, z)
  {
  }

  lemma BeginClean(t: Trace, t': Trace, z: nat)
    requires Clean(t, z) && |t'.es| > 0 && |t'.ms| == |t'.es| + 1 && t'.es[|t'.es| - 1].Host? && t'.es[|t'.es| - 1].e.Begin?
    requires t' == Trace(t.ms + [Now(t')], t.es + [t'.es[|t'.es| - 1]])
    ensures Clean(t', z)
  {
    CleanThen(t, Now(t'), t'.es[|t'.es| - 1], z);
  }

  // ---- a write of 2 over the ones -------------------------------------------------------

  lemma PlacesBefore(s: S.State, pos: nat, x: int)
    requires One(s, x)
    ensures |s.disks| > 0 && (0, x) in S.At(s)
  {
  }

  function MainCall(pos: nat, len: nat, buf: int): C.Call {
    C.Call(true, 0, pos, len, buf, 0, iset{})
  }

  lemma MainGoes(t: Trace, pos: nat, len: nat, buf: int, qd: nat) returns (t': Trace)
    requires Prepared(t, pos, len, buf, qd) && pos % SECTOR == 0
    ensures Ok(t') && Clean(t', pos + len) && Steady(Now(t')) && SameSize(Now(t), Now(t')) && Going(Now(t'), 1) && Now(t').awaits[1] == {}
    ensures Now(t').pool == Now(t).pool.(calls := map[1 := MainCall(pos, len, buf)]) && |Now(t').queues[U].log| <= Span(pos, len)
    ensures t' == Trace(t.ms + [Now(t')], t.es + [Host(S.Begin(1, true, 0, pos, len, buf))])
  {
    hide Base, Calm, Run, Entries, NS.AllOver, S.At, One, Clean, C.Clash, C.Apart, H.WriteSize, H.ReadSize, QueuesOk, Inv;
    Basics(Now(t));
    t' := BeginCall(t, 1, true, pos, len, buf);
    BeginClean(t, t', pos + len);
    SamePlaces(Now(t).pool, Now(t').pool);
    if pos > 0 {
      assert One(Now(t).pool, pos - 1);
      PlacesBefore(Now(t).pool, pos, pos - 1);
    }
  }

  /** Trace t goes on to t' with nothing but events of write call 1. */
  ghost predicate Goes(t: Trace, t': Trace, pos: nat, len: nat, buf: int) {
    && t.ms < t'.ms && t.es < t'.es && |t'.ms| == |t'.es| + 1
    && t'.es[|t.es|] == Host(S.Begin(1, true, 0, pos, len, buf))
    && forall j {:trigger t'.es[j]} :: |t.es| < j < |t'.es| ==> Mine(t'.ms[j], t'.es[j], 1, true) || t'.es[j] == Host(S.End(1))
  }

  /** All of it is served before it returns: behind it there are zeros to the end of the sector. */
  lemma Whole(pos: nat, len: nat, buf: int) returns (t: Trace, t': Trace)
    requires pos % SECTOR == 0 && len % SECTOR != 0
    ensures Prepared(t, pos, len, buf, Depth(pos, len)) && Ok(t') && Goes(t, t', pos, len, buf) && Idle(Now(t'))
    ensures Stands(Now(t').pool, pos + len, 0)
  {
    hide Base, Calm, Run, Entries, NS.AllOver, S.At, Going, Filled, S.Inv, Stands, One, Clean;
    t := Prepare(pos, len, buf, Depth(pos, len));
    var t1 := MainGoes(t, pos, len, buf, Depth(pos, len));
    Basics(Now(t1));
    var t2 := WriteOn(t1, 1, true, true);
    Basics(Now(t2));
    t' := EndCall(t2, 1);
    CallsStand(Now(t2).pool, Now(t').pool, pos + len, 0);
  }

  lemma CallsStand(s: S.State, s': S.State, x: int, b: byte)
    requires Stands(s, x, b) && s' == s.(calls := s'.calls)
    ensures Stands(s', x, b)
  {
  }

  /** The last request of a write starts where the others end. */
  lemma AtLast(c: C.Call)
    requires C.CallOk(c) && c.write && c.issued < c.len && !More(c, false)
    ensures c.issued <= R.LastOff(c.pos, c.len)
  {
    var size := C.SizeOf(c);
    H.SizesGood(c.pos, c.len);
    R.LastOffIs(c.pos, c.len);
    if c.issued > 0 {
      M.DivBounds(c.len - 1, size, c.issued / size);
      assert c.issued == c.issued / size * size;
      M.MulMono(c.issued / size, (c.len - 1) / size, size);
    }
  }

  lemma SentStands(s: S.State, id: nat, k: V.Key, s': S.State, x: int, b: byte)
    requires S.Inv(s) && S.Issues(s, id, k, s') && Stands(s, x, b)
    ensures Stands(s', x, b)
  {
    hide S.Inv, S.Issues, S.At;
    IssuePlaces(s, id, k, s');
    SentFields(s, id, k, s');
    StandsAlso(S.At(s), S.At(s'), s.disks, x, b);
  }

  lemma SentFields(s: S.State, id: nat, k: V.Key, s': S.State)
    requires S.Issues(s, id, k, s')
    ensures id in s.calls && k in s'.reqs && s'.disks == s.disks && s'.mem == s.mem && s'.reqs == s.reqs[k := s'.reqs[k]] && s'.reqs[k].call == id
    ensures id in s'.calls && s'.calls == s.calls[id := s'.calls[id]] && s'.calls[id].issued == s.calls[id].issued + C.SizeOf(s.calls[id])
    ensures s'.calls[id] == s.calls[id].(issued := s'.calls[id].issued, wild := s'.calls[id].wild)
  {
    H.SizesGood(s.calls[id].pos, s.calls[id].len);
  }

  /**
   * The write may return in s with its last request still to be carried out; the bytes from pos + y on,
   * which that covers, are 1 on the drive.
   */
  ghost predicate Waiting(s: S.State, pos: nat, len: nat, buf: int, y: nat) {
    && 1 in s.calls && s.calls == map[1 := MainCall(pos, len, buf).(issued := s.calls[1].issued, wild := s.calls[1].wild)]
    && s.mem == Ink(buf, len) && s.calls[1].issued >= len
    && (forall k {:trigger s.reqs[k]} :: k in s.reqs ==> s.reqs[k].call == 1)
    && (forall x {:trigger Stands(s, x, 1)} :: pos + y <= x < pos + y + SECTOR ==> Stands(s, x, 1))
  }

  lemma SentWaits(s: S.State, k: V.Key, s': S.State, pos: nat, len: nat, buf: int, y: nat)
    requires S.Inv(s) && S.Issues(s, 1, k, s') && s.calls == map[1 := MainCall(pos, len, buf).(issued := s.calls[1].issued, wild := s.calls[1].wild)]
    requires s.mem == Ink(buf, len) && s.reqs == map[] && !More(s.calls[1], false)
    requires forall x {:trigger Stands(s, x, 1)} :: pos + y <= x < pos + y + SECTOR ==> Stands(s, x, 1)
    ensures Waiting(s', pos, len, buf, y)
  {
    hide S.Inv, S.Issues, Stands;
    SentFields(s, 1, k, s');
    forall x | pos + y <= x < pos + y + SECTOR ensures Stands(s', x, 1) {
      SentStands(s, 1, k, s', x, 1);
    }
  }

  /** Beyond what a write has issued the ones are still there. */
  lemma StillOnes(s: S.State, s': S.State, pos: nat, len: nat, y: nat)
    requires Wrote(s, 1, s', false) && s.calls[1].pos == pos && s.calls[1].issued == 0 && s'.calls[1].issued < s'.calls[1].len == len
    requires s'.calls[1].issued <= y < len
    requires forall x {:trigger One(s, x)} :: 0 <= x < Span(pos, len) ==> One(s, x)
    ensures forall x {:trigger Stands(s', x, 1)} :: pos + y <= x < pos + y + SECTOR ==> Stands(s', x, 1)
  {
    hide S.At;
    forall x | pos + y <= x < pos + y + SECTOR ensures Stands(s', x, 1) {
      assert One(s, x);
    }
  }

  lemma OnesKept(s: S.State, s': S.State, n: nat)
    requires s' == s.(calls := s'.calls) && forall x {:trigger One(s, x)} :: 0 <= x < n ==> One(s, x)
    ensures forall x {:trigger One(s', x)} :: 0 <= x < n ==> One(s', x)
  {
    forall x | 0 <= x < n ensures One(s', x) {
      assert One(s, x);
    }
  }

  lemma AllButLast(pos: nat, len: nat, buf: int, y: nat, qd: nat) returns (t: Trace)
    requires qd >= 2 && pos % SECTOR == 0 && R.LastOff(pos, len) <= y < len
    ensures Ok(t) && Clean(t, pos + len) && Steady(Now(t)) && Going(Now(t), 1) && Now(t).awaits[1] == {}
    ensures Now(t).qd == qd && Entries(Now(t)) == Depth(pos, len)
    ensures var s := Now(t).pool;
            && s.calls == map[1 := MainCall(pos, len, buf).(issued := s.calls[1].issued, wild := s.calls[1].wild)]
            && s.mem == Ink(buf, len) && s.reqs == map[] && s.calls[1].issued < len && !More(s.calls[1], false)
            && forall x {:trigger Stands(s, x, 1)} :: pos + y <= x < pos + y + SECTOR ==> Stands(s, x, 1)
  {
    hide Base, Calm, Run, Entries, NS.AllOver, S.At, Filled, S.Inv, Stands, One, Clean, S.Issues, Later, Wrote, R.LastOff, C.CallOk, H.WriteSize, H.ReadSize, N.NULL;
    var t0 := Prepare(pos, len, buf, qd);
    var t1 := MainGoes(t0, pos, len, buf, qd);
    OnesKept(Now(t0).pool, Now(t1).pool, Span(pos, len));
    Basics(Now(t1));
    t := WriteOn(t1, 1, false, false);
    Basics(Now(t));
    CleanLater(t1, t, 1, true, pos + len);
    WroteFields(Now(t1).pool, 1, Now(t).pool, false);
    CallIsOk(Now(t), 1);
    AtLast(Now(t).pool.calls[1]);
    StillOnes(Now(t1).pool, Now(t).pool, pos, len, y);
  }

  /** All but its last request are served before it returns. */
  lemma Early(pos: nat, len: nat, buf: int, y: nat, qd: nat) returns (t: Trace)
    requires qd >= 2 && pos % SECTOR == 0 && R.LastOff(pos, len) <= y < len
    ensures Ok(t) && Clean(t, pos + len) && Steady(Now(t)) && 1 in Now(t).pool.calls && Returns(Now(t), 1) && Waiting(Now(t).pool, pos, len, buf, y)
    ensures Now(t).qd == qd && Service.OnlyLast(Now(t).queues[U]) && pos + len + SECTOR < Entries(Now(t))
  {
    hide Base, Calm, Run, Entries, NS.AllOver, S.At, Filled, S.Inv, Stands, Clean, S.Issues, Later, R.LastOff, Waiting, H.WriteSize, H.ReadSize;
    var t1 := AllButLast(pos, len, buf, y, qd);
    Basics(Now(t1));
    GoingReady(Now(t1), 1);
    PoolInv(Now(t1));
    var k, tick;
    t, k, tick := Send(t1, 1);
    CleanLater(t1, t, 1, true, pos + len);
    SentFields(Now(t1).pool, 1, (U, k), Now(t).pool);
    SentWaits(Now(t1).pool, (U, k), Now(t).pool, pos, len, buf, y);
  }

  // ---- a read of the sector that the write has left -------------------------------------

  function SectorOf(x: nat): nat {
    x / SECTOR * SECTOR
  }

  lemma SectorFits(x: nat)
    ensures SectorOf(x) % SECTOR == 0 && SectorOf(x) <= x < SectorOf(x) + SECTOR
    ensures SectorOf(x) % BLKSZ + SECTOR <= BLKSZ
  {
    M.DivModUnique(SectorOf(x), SECTOR, x / SECTOR, 0);
    var u := H.SectorsInPage(SectorOf(x));
  }

  lemma InFile(fs: F.FS, nd: nat, x: nat)
    requires nd > 0 && |fs.files| == 1 && fs.files[0].name != "" && (0, x) in Y.PlacesOf(fs, nd)
    ensures x < fs.files[0].nBlock * F.BLOCK_SIZE
  {
    M.DivBounds(x, F.BLOCK_SIZE, F.HeldBy(fs.files[0]));
  }

  function ReadCall(pos: nat): C.Call {
    C.Call(false, 0, pos, SECTOR, 1, 0, iset{})
  }

  /** A read of one sector goes out when write call 1 has just returned. */
  lemma ReadGoes(t: Trace, pos: nat) returns (t': Trace)
    requires Ok(t) && Steady(Now(t)) && Now(t).pool.calls == map[] && pos % SECTOR == 0 && pos + SECTOR < Entries(Now(t))
    requires forall k {:trigger Now(t).pool.reqs[k]} :: k in Now(t).pool.reqs ==> Now(t).pool.reqs[k].call == 1
    requires Stands(Now(t).pool, pos + SECTOR - 1, 1)
    ensures Ok(t') && Steady(Now(t')) && SameSize(Now(t), Now(t')) && Now(t').queues == Now(t).queues
    ensures Now(t').pool == Now(t).pool.(calls := map[2 := ReadCall(pos)]) && 2 in Now(t').awaits && Now(t').awaits[2] == {}
    ensures |Now(t').pool.disks| == 1 && Ready(S.At(Now(t').pool), ReadCall(pos), Entries(Now(t')))
    ensures t' == Trace(t.ms + [Now(t')], t.es + [Host(S.Begin(2, false, 0, pos, SECTOR, 1))])
  {
    hide Calm, Run, Inv;
    var s := Now(t).pool;
    InFile(s.fs, |s.disks|, pos + SECTOR - 1);
    assert S.NewCall(s.fs, false, 0, pos, SECTOR, 1) == ReadCall(pos);
    t' := BeginCall(t, 2, false, pos, SECTOR, 1);
  }

  lemma EndWaits(s: S.State, s': S.State, pos: nat, len: nat, buf: int, y: nat)
    requires Waiting(s, pos, len, buf, y) && s' == s.(calls := s.calls - {1})
    ensures s'.calls == map[] && forall x {:trigger Stands(s', x, 1)} :: pos + y <= x < pos + y + SECTOR ==> Stands(s', x, 1)
    ensures forall k {:trigger s'.reqs[k]} :: k in s'.reqs ==> s'.reqs[k].call == 1
  {
    forall x | pos + y <= x < pos + y + SECTOR ensures Stands(s', x, 1) {
      CallsStand(s, s', x, 1);
    }
  }

  /** What stands on the drive is one byte. */
  lemma OneByte(s: S.State, x: int, a: byte, b: byte)
    requires Stands(s, x, a) && Stands(s, x, b)
    ensures a == b
  {
  }

  lemma ReadFetches(s: S.State, pos: nat, s': S.State, x: nat)
    requires |s.disks| == 1 && ReadLeft(s, ReadCall(pos), s') && pos <= x < pos + SECTOR && pos % BLKSZ + SECTOR <= BLKSZ && Stands(s, x, 1)
    ensures s'.mem(1 + x - pos) == 1
  {
    hide S.At;
    assert Has(s', ReadCall(pos), x);
    OneByte(s', x, 1, s'.mem(1 + x - pos));
  }

  lemma MovedCall(s: S.State, id: nat, s': S.State)
    requires Moved(s, id, s')
    ensures id in s.calls && id in s'.calls
    ensures var c, d := s.calls[id], s'.calls[id];
            d == c.(issued := d.issued, wild := d.wild) && d.issued == c.issued + C.SizeOf(c)
  {
  }

  /** t' goes on from t, where write call 1 returns, to where read call 2 returns, having read x. */
  ghost predicate ReadsOn(t: Trace, t': Trace, x: nat) {
    && t.ms < t'.ms && t.es < t'.es && |t.ms| == |t.es| + 1 && |t'.ms| == |t'.es| + 1 && |t'.es| > |t.es| + 2
    && t'.es[|t.es|] == Host(S.End(1)) && t'.es[|t.es| + 1] == Host(S.Begin(2, false, 0, SectorOf(x), SECTOR, 1))
    && t'.es[|t'.es| - 1] == Host(S.End(2))
    && (forall j {:trigger t'.es[j]} :: |t.es| + 1 < j < |t'.es| - 1 ==> Mine(t'.ms[j], t'.es[j], 2, false))
    && var s := t'.ms[|t'.es| - 1].pool;
    && 2 in s.calls && s.calls[2] == ReadCall(SectorOf(x)).(issued := s.calls[2].issued, wild := s.calls[2].wild) && s.mem(1 + x - SectorOf(x)) == 1
  }

  /** The read is over before the write's last request is carried out. */
  lemma ReadEarly(t: Trace, pos: nat, len: nat, buf: int, y: nat) returns (t': Trace)
    requires Ok(t) && Steady(Now(t)) && 1 in Now(t).pool.calls && Returns(Now(t), 1) && Waiting(Now(t).pool, pos, len, buf, y) && y < len
    requires Service.OnlyLast(Now(t).queues[U]) && pos + len + SECTOR < Entries(Now(t))
    ensures Ok(t') && ReadsOn(t, t', pos + y)
  {
    hide Base, Calm, Run, Inv, Entries, NS.AllOver, Service.OnlyLast, Moved, S.At, Stands, S.Inv, Waiting, ReadLeft, Ready;
    var x := pos + y;
    SectorFits(x);
    var t1 := EndCall(t, 1);
    EndWaits(Now(t).pool, Now(t1).pool, pos, len, buf, y);
    var t2 := ReadGoes(t1, SectorOf(x));
    Basics(Now(t2));
    CallsStand(Now(t1).pool, Now(t2).pool, x, 1);
    var t3 := Serve(t2, 2);
    MovedCall(Now(t2).pool, 2, Now(t3).pool);
    ReadFetches(Now(t2).pool, SectorOf(x), Now(t3).pool, x);
    t' := EndCall(t3, 2);
  }
}
