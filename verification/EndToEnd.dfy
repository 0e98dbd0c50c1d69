/** What clients can rely on over whole runs of the stack with its queue pairs. */
module EndToEnd {
  import opened Memory
  import opened Sizes
  import opened Machine
  import C = Calls
  import S = Stack
  import R = ReadAfterWrite
  import F = Myfs
  import L = Locate
  import V = Volume

  /** Byte x of file i may change: a write request whose sectors cover it is issued, or the file is unlinked. */
  predicate Touches(m: Machine, e: Event, i: nat, x: int) {
    match e
    case Issue(id, u) => R.Touches(m.pool, S.Issue(id, (u, 0)), i, x)
    case Host(h) => R.Touches(m.pool, h, i, x)
    case _ => false
  }

  lemma TouchesSeen(m: Machine, e: Event, m': Machine, i: nat, x: int)
    requires !Touches(m, e, i, x)
    ensures !R.Touches(m.pool, Seen(m, e, m'), i, x)
  {
  }

  lemma Untouched(ms: seq<Machine>, es: seq<Event>, a: nat, b: nat, i: nat, x: int)
    requires |ms| == |es| + 1 && a < b < |es|
    requires forall m {:trigger es[m]} :: a < m < b ==> !Touches(ms[m], es[m], i, x)
    ensures forall m {:trigger PoolEvents(ms, es)[m]} :: a < m < b ==> !R.Touches(Pools(ms)[m], PoolEvents(ms, es)[m], i, x)
  {
    forall m | a < m < b ensures !R.Touches(Pools(ms)[m], PoolEvents(ms, es)[m], i, x) {
      assert !Touches(ms[m], es[m], i, x);
      TouchesSeen(ms[m], es[m], ms[m + 1], i, x);
    }
  }

  /** A write call that returns at event a, a read call on the same file that returns at event b, and a byte of both. */
  predicate WriteThenRead(ms: seq<Machine>, es: seq<Event>, a: nat, b: nat, w: nat, r: nat, x: nat)
    requires |ms| == |es| + 1
  {
    && a < b < |es| && es[a] == Host(S.End(w)) && es[b] == Host(S.End(r))
    && w in ms[a].pool.calls && r in ms[b].pool.calls
    && var cw, cr := ms[a].pool.calls[w], ms[b].pool.calls[r];
    && cw.write && !cr.write && cw.file == cr.file
    && cw.pos <= x < cw.pos + cw.len && cr.pos <= x < cr.pos + cr.len
  }

  /** What the read has at the byte and what the write had there. */
  predicate ReadsWritten(ms: seq<Machine>, a: nat, b: nat, w: nat, r: nat, x: nat)
    requires a < |ms| && b < |ms| && w in ms[a].pool.calls && r in ms[b].pool.calls
  {
    var cw, cr := ms[a].pool.calls[w], ms[b].pool.calls[r];
    ms[b].pool.mem(cr.buf + x - cr.pos) == ms[a].pool.mem(cw.buf + x - cw.pos)
  }

  /**
   * Read after write, end to end. Chunking, block tables, the RAID split, submission and completion rings,
   * bounce buffers, request ids and polling together behave like one byte map for each file: a read that
   * returns at event b has, at every byte, what the last write to that byte had in its buffer when it returned
   * at event a, provided no write request covered that byte and nobody unlinked the file in between. How the
   * drives order, delay and complete the commands is arbitrary, and so is the reuse of slots. Excepted are the
   * bytes at which an even earlier write was still waiting when the two calls issued their requests.
   */
  lemma LastWriteIsRead(ms: seq<Machine>, es: seq<Event>, a: nat, b: nat, w: nat, r: nat, x: nat)
    requires Run(ms, es) && WriteThenRead(ms, es, a, b, w, r, x)
    requires forall m {:trigger es[m]} :: a < m < b ==> !Touches(ms[m], es[m], ms[a].pool.calls[w].file, x)
    requires x !in ms[a].pool.calls[w].wild && x !in ms[b].pool.calls[r].wild
    ensures ReadsWritten(ms, a, b, w, r, x)
  {
    hide Init, Inv, Step, R.Run, R.Touches;
    RunRefines(ms, es);
    Untouched(ms, es, a, b, ms[a].pool.calls[w].file, x);
    R.LastWriteIsRead(Pools(ms), PoolEvents(ms, es), a, b, w, r, x);
  }

  // ---- the exception, as a caller can tell ----------------------------------------------

  /** A write returns of which the byte lies in the sectors of its last request. */
  predicate TailReturns(m: Machine, e: Event, i: nat, x: int) {
    e.Host? && e.e.End? && e.e.id in m.pool.calls && m.pool.calls[e.e.id].file == i && R.InTail(m.pool.calls[e.e.id], x)
  }

  lemma {:induction false} NoTails(ms: seq<Machine>, es: seq<Event>, b: nat, i: nat, x: int)
    requires |ms| == |es| + 1 && b <= |es| && forall j {:trigger es[j]} :: 0 <= j < b ==> !TailReturns(ms[j], es[j], i, x)
    ensures (i, x) !in R.Tails(Pools(ms), PoolEvents(ms, es), b)
  {
    hide R.InTail;
    if b > 0 {
      NoTails(ms, es, b - 1, i, x);
      assert !TailReturns(ms[b - 1], es[b - 1], i, x);
    }
  }

  lemma NoUnlinks(ms: seq<Machine>, es: seq<Event>, b: nat)
    requires |ms| == |es| + 1 && b <= |es| && forall j {:trigger es[j]} :: 0 <= j < b ==> !(es[j].Host? && es[j].e.Unlink?)
    ensures forall j {:trigger PoolEvents(ms, es)[j]} :: 0 <= j < b ==> !PoolEvents(ms, es)[j].Unlink?
  {
  }

  lemma NotWild(ms: seq<Machine>, es: seq<Event>, i: nat, id: nat, x: int)
    requires Run(ms, es) && i <= |es| && id in ms[i].pool.calls
    requires forall j {:trigger es[j]} :: 0 <= j < i ==> !(es[j].Host? && es[j].e.Unlink?)
    requires forall j {:trigger es[j]} :: 0 <= j < i ==> !TailReturns(ms[j], es[j], ms[i].pool.calls[id].file, x)
    ensures x !in ms[i].pool.calls[id].wild
  {
    RunRefines(ms, es);
    NoTails(ms, es, i, ms[i].pool.calls[id].file, x);
    NoUnlinks(ms, es, i);
    R.NotWild(Pools(ms), PoolEvents(ms, es), i, id, x);
  }

  /**
   * Read after write, as a caller can tell: in runs without unlinking, only bytes in the sectors of the last
   * request of a write that has returned can be read as anything else.
   */
  lemma CallerReads(ms: seq<Machine>, es: seq<Event>, a: nat, b: nat, w: nat, r: nat, x: nat)
    requires Run(ms, es) && WriteThenRead(ms, es, a, b, w, r, x)
    requires forall m {:trigger es[m]} :: a < m < b ==> !Touches(ms[m], es[m], ms[a].pool.calls[w].file, x)
    requires forall j {:trigger es[j]} :: 0 <= j < b ==> !(es[j].Host? && es[j].e.Unlink?)
    requires forall j {:trigger es[j]} :: 0 <= j < b ==> !TailReturns(ms[j], es[j], ms[a].pool.calls[w].file, x)
    ensures ReadsWritten(ms, a, b, w, r, x)
  {
    NotWild(ms, es, a, w, x);
    NotWild(ms, es, b, r, x);
    LastWriteIsRead(ms, es, a, b, w, r, x);
  }

  // ---- in the client's terms ------------------------------------------------------------

  /** Call id was made at event b0 with these arguments and returns at event b. */
  predicate Asked(ms: seq<Machine>, es: seq<Event>, b0: nat, b: nat, id: nat, write: bool, file: nat, pos: nat, len: nat, buf: int) {
    && |ms| == |es| + 1 && b0 < b < |es|
    && es[b0] == Host(S.Begin(id, write, file, pos, len, buf)) && es[b] == Host(S.End(id))
    && forall j {:trigger es[j]} :: b0 < j < b ==> es[j] != Host(S.End(id))
  }

  /** The size of a file: its blocks, of 2 MB each. */
  function SizeOf(m: Machine, file: nat): nat {
    if file < |m.pool.fs.files| then 2 * 1024 * 1024 * |F.Table(m.pool.fs.files[file])| else 0
  }

  /** What the call works on: the range asked for, of which a read leaves off what lies behind the end of the file. */
  predicate Serves(m: Machine, c: C.Call, write: bool, file: nat, pos: nat, len: nat, buf: int) {
    && c.write == write && c.file == file && c.pos == pos && c.buf == buf
    && c.len == if write || pos + len <= SizeOf(m, file) then len else SizeOf(m, file) - pos
  }

  lemma BeginServes(m: Machine, id: nat, write: bool, file: nat, pos: nat, len: nat, buf: int, s': S.State)
    requires F.Conserved(m.pool.fs) && S.Step(m.pool, S.Begin(id, write, file, pos, len, buf), s')
    ensures id in s'.calls && Serves(m, s'.calls[id], write, file, pos, len, buf)
  {
    hide C.MayBegin;
    assert F.FileOk(m.pool.fs.files[file]);
  }

  /** Until it returns a call keeps its arguments. */
  lemma ServesStill(s: S.State, e: S.Event, s': S.State, id: nat)
    requires S.Step(s, e, s') && id in s.calls && e != S.End(id)
    ensures id in s'.calls && s'.calls[id] == s.calls[id].(issued := s'.calls[id].issued, wild := s'.calls[id].wild)
  {
    hide L.Found, L.Allocates, V.WildIn, C.NextReq, F.Unlinks;
  }

  lemma NotItsEnd(m: Machine, e: Event, m': Machine, id: nat)
    requires e != Host(S.End(id))
    ensures Seen(m, e, m') != S.End(id)
  {
  }

  lemma {:induction false} CallServes(ms: seq<Machine>, es: seq<Event>, b0: nat, b: nat, i: nat, id: nat, write: bool, file: nat, pos: nat,
                                      len: nat, buf: int)
    requires Run(ms, es) && Asked(ms, es, b0, b, id, write, file, pos, len, buf) && b0 < i <= b
    ensures id in ms[i].pool.calls && Serves(ms[b0], ms[i].pool.calls[id], write, file, pos, len, buf)
  {
    hide Run, F.Conserved, S.Step, Seen, SizeOf;
    RunStep(ms, es, i - 1);
    if i == b0 + 1 {
      FilesHold(ms, es, b0);
      SeenBegin(ms[b0], es[b0], ms[i], id, write, file, pos, len, buf);
      BeginServes(ms[b0], id, write, file, pos, len, buf, ms[i].pool);
    } else {
      CallServes(ms, es, b0, b, i - 1, id, write, file, pos, len, buf);
      NotItsEnd(ms[i - 1], es[i - 1], ms[i], id);
      ServesStill(ms[i - 1].pool, Seen(ms[i - 1], es[i - 1], ms[i]), ms[i].pool, id);
    }
  }

  lemma SeenBegin(m: Machine, e: Event, m': Machine, id: nat, write: bool, file: nat, pos: nat, len: nat, buf: int)
    requires e == Host(S.Begin(id, write, file, pos, len, buf))
    ensures Seen(m, e, m') == S.Begin(id, write, file, pos, len, buf)
  {
  }

  lemma FilesHold(ms: seq<Machine>, es: seq<Event>, i: nat)
    requires Run(ms, es) && i <= |es|
    ensures F.Conserved(ms[i].pool.fs)
  {
    hide Run, Kept, S.Core, S.Hosts, S.FilesOk, F.Conserved;
    RunInv(ms, es, i);
  }

  /**
   * What a client gets: every byte it asked for that lies in the file arrives at its place in the buffer, and
   * is what the file holds there when the read returns, where that is determined.
   */
  lemma AskedArrives(ms: seq<Machine>, es: seq<Event>, b0: nat, b: nat, r: nat, file: nat, pos: nat, len: nat, buf: int, x: nat)
    requires Run(ms, es) && Asked(ms, es, b0, b, r, false, file, pos, len, buf)
    requires pos <= x < pos + len && x < SizeOf(ms[b0], file)
    requires forall j {:trigger es[j]} :: 0 <= j < b ==> !(es[j].Host? && es[j].e.Unlink?) && !TailReturns(ms[j], es[j], file, x)
    ensures V.Agrees(ms[b].pool.spec(file, x), ms[b].pool.mem(buf + x - pos))
  {
    hide Run, R.Run, SizeOf, TailReturns;
    CallServes(ms, es, b0, b, b, r, false, file, pos, len, buf);
    NotWild(ms, es, b, r, x);
    RunRefines(ms, es);
    assert PoolEvents(ms, es)[b] == S.End(r);
    R.EndReturns(Pools(ms), PoolEvents(ms, es), b, r, x);
  }

  /**
   * Read after write, from call to return: a byte that one call was asked to write and another, returning
   * later, was asked to read is what the write's buffer held, if it lies in the file as it was when the read
   * was made and nothing else disturbed it.
   */
  lemma AskedIsRead(ms: seq<Machine>, es: seq<Event>, a0: nat, a: nat, w: nat, wpos: nat, wlen: nat, wbuf: int,
                    b0: nat, b: nat, r: nat, rpos: nat, rlen: nat, rbuf: int, file: nat, x: nat)
    requires Run(ms, es) && a < b
    requires Asked(ms, es, a0, a, w, true, file, wpos, wlen, wbuf) && Asked(ms, es, b0, b, r, false, file, rpos, rlen, rbuf)
    requires wpos <= x < wpos + wlen && rpos <= x < rpos + rlen && x < SizeOf(ms[b0], file)
    requires forall m {:trigger es[m]} :: a < m < b ==> !Touches(ms[m], es[m], file, x)
    requires forall j {:trigger es[j]} :: 0 <= j < b ==> !(es[j].Host? && es[j].e.Unlink?)
    requires forall j {:trigger es[j]} :: 0 <= j < b ==> !TailReturns(ms[j], es[j], file, x)
    ensures ms[b].pool.mem(rbuf + x - rpos) == ms[a].pool.mem(wbuf + x - wpos)
  {
    hide Run, SizeOf, Touches, TailReturns;
    CallServes(ms, es, a0, a, a, w, true, file, wpos, wlen, wbuf);
    CallServes(ms, es, b0, b, b, r, false, file, rpos, rlen, rbuf);
    CallerReads(ms, es, a, b, w, r, x);
  }
}
