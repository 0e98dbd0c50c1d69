/**
 * Exactly what a returned write leaves. Three laws one may expect of write_impl fail for some calls; each
 * holds for precisely the calls that meet a condition on their position and length, in every run.
 */
module Exact {
  import opened Memory
  import opened Sizes
  import opened Wrappers
  import opened Machine
  import opened EndToEnd
  import C = Calls
  import S = Stack
  import R = ReadAfterWrite
  import L = Locate
  import V = Volume
  import F = Myfs
  import Rounds
  import Workload
  import Scenario

  /** At event a write call w on [pos, pos + len), with its bytes at buf, returns; the queue pairs are of depth qd. */
  ghost predicate WriteEnds(ms: seq<Machine>, es: seq<Event>, a: nat, w: nat, pos: nat, len: nat, buf: int, qd: nat) {
    && |ms| == |es| + 1 && Run(ms, es) && a < |es| && es[a] == Host(S.End(w)) && w in ms[a].pool.calls
    && var c := ms[a].pool.calls[w];
    && c.write && c.pos == pos && c.len == len && c.buf == buf && ms[a].qd == qd
  }

  /** In the first b events no file is unlinked, and no write returns, other than at event a, whose last request covers the byte. */
  ghost predicate Undisturbed(ms: seq<Machine>, es: seq<Event>, b: nat, a: nat, i: nat, x: int)
    requires |ms| == |es| + 1 && b <= |es|
  {
    forall j {:trigger es[j]} :: 0 <= j < b ==> !(es[j].Host? && es[j].e.Unlink?) && (j != a ==> !TailReturns(ms[j], es[j], i, x))
  }

  /** The byte of the file is on its drive. */
  ghost predicate OnDrive(s: S.State, i: nat, x: int, b: byte) {
    |s.disks| > 0 && R.OnDrive(S.At(s), s.disks, i, x, b)
  }

  // ---- durable at return ----------------------------------------------------------------

  /** In an otherwise undisturbed run byte y of the returning write's buffer is on the drive. */
  ghost predicate DurableIn(ms: seq<Machine>, es: seq<Event>, a: nat, w: nat, y: nat)
    requires |ms| == |es| + 1 && a < |es| && w in ms[a].pool.calls
  {
    var s, c := ms[a].pool, ms[a].pool.calls[w];
    Undisturbed(ms, es, a, a, c.file, c.pos + y) ==> OnDrive(s, c.file, c.pos + y, s.mem(c.buf + y))
  }

  /** Whenever such a write returns, byte y of its buffer is on the drive. */
  ghost predicate DurableAtReturn(qd: nat, pos: nat, len: nat, buf: int, y: nat) {
    forall ms: seq<Machine>, es: seq<Event>, a: nat, w: nat {:trigger WriteEnds(ms, es, a, w, pos, len, buf, qd)} ::
      WriteEnds(ms, es, a, w, pos, len, buf, qd) ==> DurableIn(ms, es, a, w, y)
  }

  lemma WriteDurable(ms: seq<Machine>, es: seq<Event>, a: nat, w: nat, pos: nat, len: nat, buf: int, y: nat, qd: nat)
    requires WriteEnds(ms, es, a, w, pos, len, buf, qd) && y < R.LastOff(pos, len)
    ensures DurableIn(ms, es, a, w, y)
  {
    hide Inv, Init, Step, Run, S.Step, S.Inv, S.At, R.LastOff;
    var s, c := ms[a].pool, ms[a].pool.calls[w];
    if Undisturbed(ms, es, a, a, c.file, c.pos + y) {
      NotWild(ms, es, a, w, pos + y);
      EndStep(ms, es, a, w);
      R.DurableBelowLast(s, w, pos + y);
    }
  }

  lemma EndStep(ms: seq<Machine>, es: seq<Event>, a: nat, w: nat)
    requires Run(ms, es) && a < |es| && es[a] == Host(S.End(w))
    ensures S.Inv(ms[a].pool) && |ms[a].pool.disks| > 0 && S.MayEnd(ms[a].pool, w)
  {
    hide Inv, Init, Step, S.MayEnd, S.Inv;
    RunInv(ms, es, a);
    PoolHolds(ms[a]);
    RunStep(ms, es, a);
  }

  lemma PoolHolds(m: Machine)
    requires Inv(m)
    ensures S.Inv(m.pool) && |m.pool.disks| > 0
  {
  }

  /**
   * A byte of a write is on its drive when the write returns, in every run with queue pairs of this depth, exactly
   * if it lies before the write's last request, which is a page for a write of whole pages and a sector for any
   * other. (A write of several requests never returns with a depth of 1.)
   */
  lemma DurableExact(qd: nat, pos: nat, len: nat, buf: int, y: nat)
    requires qd >= 2 && pos % SECTOR == 0 && y < len
    ensures DurableAtReturn(qd, pos, len, buf, y)
            <==> y < if pos % 4096 == 0 && len % 4096 == 0 then len - 4096 else (len - 1) / 512 * 512
  {
    hide Run, DurableIn;
    if y < R.LastOff(pos, len) {
      forall ms: seq<Machine>, es: seq<Event>, a: nat, w: nat | WriteEnds(ms, es, a, w, pos, len, buf, qd) ensures DurableIn(ms, es, a, w, y) {
        WriteDurable(ms, es, a, w, pos, len, buf, y, qd);
      }
    } else {
      var t, a := NotDurable(qd, pos, len, buf, y);
    }
  }

  lemma NotDurable(qd: nat, pos: nat, len: nat, buf: int, y: nat) returns (t: Workload.Trace, a: nat)
    requires qd >= 2 && pos % SECTOR == 0 && R.LastOff(pos, len) <= y < len
    ensures WriteEnds(t.ms, t.es, a, 1, pos, len, buf, qd) && !DurableIn(t.ms, t.es, a, 1, y)
  {
    hide Workload.Steady, Returns, Rounds.Stands, Inv, Init, StepAt, Scenario.Waiting, Scenario.Clean, R.LastOff, Undisturbed, OnDrive;
    var u := Scenario.Early(pos, len, buf, y, qd);
    t := Scenario.EndCall(u, 1);
    a := |u.es|;
    EarlyCall(Workload.Now(u).pool, pos, len, buf, y);
    CleanUndisturbed(u, t, pos, len, y);
  }

  lemma EarlyCall(s: S.State, pos: nat, len: nat, buf: int, y: nat)
    requires Scenario.Waiting(s, pos, len, buf, y) && y < len
    ensures 1 in s.calls && s.calls[1] == Scenario.MainCall(pos, len, buf).(issued := s.calls[1].issued, wild := s.calls[1].wild)
    ensures !OnDrive(s, 0, pos + y, s.mem(buf + y)) && s.mem(buf + y) == 2
  {
    assert Rounds.Stands(s, pos + y, 1);
  }

  /** What was clean stays undisturbed however the trace goes on. */
  lemma CleanUndisturbed(u: Workload.Trace, t: Workload.Trace, pos: nat, len: nat, y: nat)
    requires Scenario.Clean(u, pos + len) && y < len && u.ms <= t.ms && u.es <= t.es && |t.ms| == |t.es| + 1
    ensures Undisturbed(t.ms, t.es, |u.es|, |u.es|, 0, pos + y)
  {
    forall j | 0 <= j < |u.es| ensures !(t.es[j].Host? && t.es[j].e.Unlink?) && !TailReturns(t.ms[j], t.es[j], 0, pos + y) {
      assert Scenario.Harmless(u.ms[j], u.es[j], pos + len);
    }
  }

  // ---- read after write -----------------------------------------------------------------

  /** Nothing touches the byte of the file between the two events. */
  ghost predicate Untouched(ms: seq<Machine>, es: seq<Event>, a: nat, b: nat, i: nat, x: int)
    requires |ms| == |es| + 1 && b <= |es|
  {
    forall m {:trigger es[m]} :: a < m < b ==> !Touches(ms[m], es[m], i, x)
  }

  /** Read call r, returning at event b, has the byte as write call w had it, if nothing disturbs them. */
  ghost predicate ReadsBackIn(ms: seq<Machine>, es: seq<Event>, a: nat, b: nat, w: nat, r: nat, x: nat)
    requires |ms| == |es| + 1 && WriteThenRead(ms, es, a, b, w, r, x)
  {
    var i := ms[a].pool.calls[w].file;
    Untouched(ms, es, a, b, i, x) && Undisturbed(ms, es, b, a, i, x) ==> ReadsWritten(ms, a, b, w, r, x)
  }

  /** Such a write returns at event a, and at event b a read of its byte y. */
  ghost predicate BothEnd(ms: seq<Machine>, es: seq<Event>, a: nat, b: nat, w: nat, r: nat, pos: nat, len: nat, buf: int, y: nat, qd: nat) {
    WriteEnds(ms, es, a, w, pos, len, buf, qd) && WriteThenRead(ms, es, a, b, w, r, pos + y)
  }

  /** Whatever read covers the byte and returns after such a write has returned finds byte y of the write's buffer. */
  ghost predicate ReadsBack(qd: nat, pos: nat, len: nat, buf: int, y: nat) {
    forall ms: seq<Machine>, es: seq<Event>, a: nat, b: nat, w: nat, r: nat {:trigger BothEnd(ms, es, a, b, w, r, pos, len, buf, y, qd)} ::
      BothEnd(ms, es, a, b, w, r, pos, len, buf, y, qd) ==> ReadsBackIn(ms, es, a, b, w, r, pos + y)
  }

  lemma ReadSucceeds(ms: seq<Machine>, es: seq<Event>, a: nat, b: nat, w: nat, r: nat, pos: nat, len: nat, buf: int, y: nat, qd: nat)
    requires BothEnd(ms, es, a, b, w, r, pos, len, buf, y, qd) && y < R.LastOff(pos, len)
    ensures ReadsBackIn(ms, es, a, b, w, r, pos + y)
  {
    hide Inv, Init, StepAt, Touches, R.LastOff;
    var i := ms[a].pool.calls[w].file;
    if Untouched(ms, es, a, b, i, pos + y) && Undisturbed(ms, es, b, a, i, pos + y) {
      forall j | 0 <= j < b ensures !TailReturns(ms[j], es[j], i, pos + y) {
        assert es[j] == es[j];
      }
      CallerReads(ms, es, a, b, w, r, pos + y);
    }
  }

  /**
   * Read after write holds for a byte of a write, in every run in which nothing else disturbs it, exactly if the
   * byte lies before the write's last request: a read begun after the write has returned may find old bytes
   * in the sectors of that request, and nowhere else.
   */
  lemma ReadsBackExact(qd: nat, pos: nat, len: nat, buf: int, y: nat)
    requires qd >= 2 && pos % SECTOR == 0 && y < len
    ensures ReadsBack(qd, pos, len, buf, y)
            <==> y < if pos % 4096 == 0 && len % 4096 == 0 then len - 4096 else (len - 1) / 512 * 512
  {
    hide Run, WriteThenRead, ReadsBackIn;
    if y < R.LastOff(pos, len) {
      forall ms: seq<Machine>, es: seq<Event>, a: nat, b: nat, w: nat, r: nat
        | BothEnd(ms, es, a, b, w, r, pos, len, buf, y, qd)
        ensures ReadsBackIn(ms, es, a, b, w, r, pos + y)
      {
        ReadSucceeds(ms, es, a, b, w, r, pos, len, buf, y, qd);
      }
    } else {
      var t, a, b := NotReadBack(qd, pos, len, buf, y);
    }
  }

  lemma NotReadBack(qd: nat, pos: nat, len: nat, buf: int, y: nat) returns (t: Workload.Trace, a: nat, b: nat)
    requires qd >= 2 && pos % SECTOR == 0 && R.LastOff(pos, len) <= y < len
    ensures BothEnd(t.ms, t.es, a, b, 1, 2, pos, len, buf, y, qd)
    ensures !ReadsBackIn(t.ms, t.es, a, b, 1, 2, pos + y)
  {
    hide Workload.Steady, Returns, Inv, Init, StepAt, Scenario.Waiting, Scenario.Clean, R.LastOff;
    var u := Scenario.Early(pos, len, buf, y, qd);
    t := Scenario.ReadEarly(u, pos, len, buf, y);
    a, b := |u.es|, |t.es| - 1;
    Scenario.SectorFits(pos + y);
    EarlyCall(Workload.Now(u).pool, pos, len, buf, y);
    ReadUndisturbed(u, t, pos, len, y);
  }

  lemma ReadUndisturbed(u: Workload.Trace, t: Workload.Trace, pos: nat, len: nat, y: nat)
    requires Scenario.Clean(u, pos + len) && y < len && Scenario.ReadsOn(u, t, pos + y)
    ensures Undisturbed(t.ms, t.es, |t.es| - 1, |u.es|, 0, pos + y) && Untouched(t.ms, t.es, |u.es|, |t.es| - 1, 0, pos + y)
  {
    CleanUndisturbed(u, t, pos, len, y);
    forall j | |u.es| < j < |t.es| - 1
      ensures !(t.es[j].Host? && t.es[j].e.Unlink?) && !TailReturns(t.ms[j], t.es[j], 0, pos + y) && !Touches(t.ms[j], t.es[j], 0, pos + y)
    {
      assert j == |u.es| + 1 || Workload.Mine(t.ms[j], t.es[j], 2, false);
    }
  }

  // ---- what a write changes outside its range -------------------------------------------

  /** From event a, before which nothing is under way, to state b, where again nothing is, write call w is the only call. */
  ghost predicate Alone(ms: seq<Machine>, es: seq<Event>, a: nat, b: nat, w: nat, i: nat, pos: nat, len: nat, buf: int) {
    && |ms| == |es| + 1 && Run(ms, es) && a < b <= |es| && Scenario.Idle(ms[a]) && Scenario.Idle(ms[b])
    && es[a] == Host(S.Begin(w, true, i, pos, len, buf))
    && forall j {:trigger es[j]} :: a < j < b ==> !(es[j].Host? && (es[j].e.Begin? || es[j].e.Unlink?))
  }

  /** Every byte with a known value outside [pos, pos + len) of file i has that value on its drive after the write. */
  ghost predicate OthersKept(s: S.State, s': S.State, i: nat, pos: nat, len: nat) {
    forall k: nat, x: int {:trigger s.spec(k, x)} ::
      s.spec(k, x).Some? && !(k == i && pos <= x < pos + len) ==> OnDrive(s', k, x, s.spec(k, x).value)
  }

  /** Such a write changes nothing outside its range. */
  ghost predicate KeepsOthers(pos: nat, len: nat, buf: int) {
    forall ms: seq<Machine>, es: seq<Event>, a: nat, b: nat, w: nat, i: nat {:trigger Alone(ms, es, a, b, w, i, pos, len, buf)} ::
      Alone(ms, es, a, b, w, i, pos, len, buf) ==> OthersKept(ms[a].pool, ms[b].pool, i, pos, len)
  }

  /** No call but this one. */
  predicate Only(calls: map<nat, C.Call>, w: nat, i: nat, pos: nat, len: nat) {
    forall a {:trigger calls[a]} :: a in calls ==> a == w && calls[a].write && calls[a].file == i && calls[a].pos == pos && calls[a].len == len
  }

  lemma OnlyStill(s: S.State, e: S.Event, s': S.State, w: nat, i: nat, pos: nat, len: nat)
    requires S.Step(s, e, s') && !e.Begin? && Only(s.calls, w, i, pos, len)
    ensures Only(s'.calls, w, i, pos, len)
  {
    hide L.Found, L.Allocates, V.WildIn, C.NextReq, F.Unlinks;
  }

  /** The next request of a write of whole sectors stays in the write's range. */
  lemma NextInside(c: C.Call)
    requires C.CallOk(c) && c.issued < c.len && c.len % SECTOR == 0
    ensures c.issued + SECTOR * C.Ch(c).nblk <= c.len
  {
    C.NextFits(c, iset{});
  }

  /** A write of whole sectors touches its range only. */
  lemma TouchesOwn(s: S.State, e: S.Event, w: nat, i: nat, pos: nat, len: nat, k: nat, x: int)
    requires C.CallsOk(s.calls) && Only(s.calls, w, i, pos, len) && !e.Unlink? && len % SECTOR == 0 && !(k == i && pos <= x < pos + len)
    ensures !R.Touches(s, e, k, x)
  {
    hide C.CallOk, C.Ch, C.Clash, C.Apart;
    if e.Issue? && e.id in s.calls && s.calls[e.id].issued < s.calls[e.id].len {
      NextInside(s.calls[e.id]);
    }
  }

  lemma CallsHold(s: S.State)
    requires S.Inv(s)
    ensures C.CallsOk(s.calls)
  {
  }

  lemma {:induction false} AloneKeeps(ss: seq<S.State>, es: seq<S.Event>, a: nat, b: nat, w: nat, i: nat, pos: nat, len: nat, k: nat, x: int)
    requires R.Run(ss, es) && a <= b <= |es| && Only(ss[a].calls, w, i, pos, len)
    requires len % SECTOR == 0 && !(k == i && pos <= x < pos + len)
    requires forall j {:trigger es[j]} :: a <= j < b ==> !es[j].Begin? && !es[j].Unlink?
    ensures ss[b].spec(k, x) == ss[a].spec(k, x)
    decreases b - a
  {
    hide S.Inv, S.Init, S.Step, R.Touches, Only, C.CallsOk;
    if a < b {
      R.RunInv(ss, es, a);
      assert R.StepAt(ss, es, a);
      CallsHold(ss[a]);
      TouchesOwn(ss[a], es[a], w, i, pos, len, k, x);
      R.RunFrame(ss, es, a, k, x);
      OnlyStill(ss[a], es[a], ss[a + 1], w, i, pos, len);
      AloneKeeps(ss, es, a + 1, b, w, i, pos, len, k, x);
    }
  }

  /** Where nothing is under way every byte with a known value is on its drive. */
  lemma IdleOnDrive(s: S.State, k: nat, x: int)
    requires S.Inv(s) && s.reqs == map[] && s.spec(k, x).Some?
    ensures OnDrive(s, k, x, s.spec(k, x).value)
  {
    hide F.Conserved, S.FilesOk, C.OwnersOk, C.Clear, C.Settled, C.CallsOk, V.ReqsOk, S.At;
  }

  lemma SectorsKeep(ms: seq<Machine>, es: seq<Event>, a: nat, b: nat, w: nat, i: nat, pos: nat, len: nat, buf: int)
    requires Alone(ms, es, a, b, w, i, pos, len, buf) && len % SECTOR == 0
    ensures OthersKept(ms[a].pool, ms[b].pool, i, pos, len)
  {
    hide Inv, Init, Step, S.Inv, S.Step, OnDrive, R.Run, Run, Seen, Only;
    var s, s' := ms[a].pool, ms[b].pool;
    RunRefines(ms, es);
    AloneEvents(ms, es, a, b, w, i, pos, len, buf);
    RunInv(ms, es, b);
    PoolHolds(ms[b]);
    RunStep(ms, es, a);
    BeginOnly(ms[a].pool, w, i, pos, len, buf, ms[a + 1].pool);
    forall k: nat, x: int | s.spec(k, x).Some? && !(k == i && pos <= x < pos + len) ensures OnDrive(s', k, x, s.spec(k, x).value) {
      AloneKeeps(Pools(ms), PoolEvents(ms, es), a + 1, b, w, i, pos, len, k, x);
      IdleOnDrive(s', k, x);
    }
  }

  lemma AloneEvents(ms: seq<Machine>, es: seq<Event>, a: nat, b: nat, w: nat, i: nat, pos: nat, len: nat, buf: int)
    requires Alone(ms, es, a, b, w, i, pos, len, buf)
    ensures Seen(ms[a], es[a], ms[a + 1]) == S.Begin(w, true, i, pos, len, buf)
    ensures forall j {:trigger PoolEvents(ms, es)[j]} :: a + 1 <= j < b ==> !PoolEvents(ms, es)[j].Begin? && !PoolEvents(ms, es)[j].Unlink?
  {
    hide Run;
  }

  lemma BeginOnly(s: S.State, w: nat, i: nat, pos: nat, len: nat, buf: int, s': S.State)
    requires S.Step(s, S.Begin(w, true, i, pos, len, buf), s') && s.calls == map[]
    ensures Only(s'.calls, w, i, pos, len) && s'.spec == s.spec
  {
  }

  /** A write keeps every byte outside its range, in every run from idle to idle, exactly if its length is a multiple of the sector size. */
  lemma KeepsOthersExact(pos: nat, len: nat, buf: int)
    requires pos % SECTOR == 0
    ensures KeepsOthers(pos, len, buf) <==> len % SECTOR == 0
  {
    hide OthersKept, Alone;
    if len % SECTOR == 0 {
      forall ms: seq<Machine>, es: seq<Event>, a: nat, b: nat, w: nat, i: nat | Alone(ms, es, a, b, w, i, pos, len, buf)
        ensures a < |ms| && b < |ms| && OthersKept(ms[a].pool, ms[b].pool, i, pos, len)
      {
        AloneRange(ms, es, a, b, w, i, pos, len, buf);
        SectorsKeep(ms, es, a, b, w, i, pos, len, buf);
      }
    } else {
      var t, a, b := NotKept(pos, len, buf);
    }
  }

  lemma AloneRange(ms: seq<Machine>, es: seq<Event>, a: nat, b: nat, w: nat, i: nat, pos: nat, len: nat, buf: int)
    requires Alone(ms, es, a, b, w, i, pos, len, buf)
    ensures a < b < |ms|
  {
  }

  lemma NotKept(pos: nat, len: nat, buf: int) returns (t: Workload.Trace, a: nat, b: nat)
    requires pos % SECTOR == 0 && len % SECTOR != 0
    ensures Alone(t.ms, t.es, a, b, 1, 0, pos, len, buf) && a < b < |t.ms| && !OthersKept(t.ms[a].pool, t.ms[b].pool, 0, pos, len)
  {
    hide Workload.Steady, Rounds.Stands, Inv, Init, StepAt, Scenario.Clean, OnDrive;
    var u;
    u, t := Scenario.Whole(pos, len, buf);
    a, b := |u.es|, |t.es|;
    var s, s' := t.ms[a].pool, t.ms[b].pool;
    assert Scenario.One(s, pos + len);
    assert s.spec(0, pos + len) == Some(1);
    Zeroed(s', pos + len);
  }

  lemma Zeroed(s: S.State, x: int)
    requires Rounds.Stands(s, x, 0)
    ensures !OnDrive(s, 0, x, 1)
  {
  }
}
