/** What clients of the stack can rely on over whole runs. */
module ReadAfterWrite {
  import opened Memory
  import opened Wrappers
  import opened Sizes
  import opened Layout
  import opened Volume
  import opened Calls
  import opened Stack
  import opened Myfs
  import opened Locate
  import H = HookIo
  import M = Modular

  /** Event i takes the i-th state to the next. */
  ghost predicate StepAt(ss: seq<State>, es: seq<Event>, i: nat)
    requires i < |es| < |ss|
  {
    Step(ss[i], es[i], ss[i + 1])
  }

  /** A run: the states `ss` passed through by the events `es`, in any interleaving of clients and drives. */
  ghost predicate Run(ss: seq<State>, es: seq<Event>) {
    && |ss| == |es| + 1
    && Init(ss[0])
    && forall i: nat {:trigger StepAt(ss, es, i)} :: i < |es| ==> StepAt(ss, es, i)
  }

  lemma {:induction false} RunInv(ss: seq<State>, es: seq<Event>, i: nat)
    requires Run(ss, es) && i <= |es|
    ensures Inv(ss[i])
  {
    hide Init, Inv, Step;
    if i == 0 {
      InitInv(ss[0]);
    } else {
      RunInv(ss, es, i - 1);
      assert StepAt(ss, es, i - 1);
      StepInv(ss[i - 1], es[i - 1], ss[i]);
    }
  }

  /** In every run the free ring and the tables hold each block once, and the usage count is right unless the ring is empty. */
  lemma BlocksConserved(ss: seq<State>, es: seq<Event>, i: nat)
    requires Run(ss, es) && i <= |es|
    ensures var fs := ss[i].fs;
            Conserved(fs) && (UsedBlocks(fs.rp, fs.wp, |fs.free|) == SumBlocks(fs.files, |fs.files|) <==> fs.rp != fs.wp)
  {
    RunInv(ss, es, i);
    UsedBlocksExact(ss[i].fs);
  }

  // ---- what a returning call leaves -----------------------------------------------------

  /**
   * When a call returns: a write has made the file hold exactly the bytes of its buffer on its whole range; a
   * read has in its buffer the file's bytes wherever these are determined. Wild bytes are excepted.
   */
  lemma Returns(calls: map<nat, Call>, reqs: map<Key, Pending>, mem: Store, spec: ByteMap, id: nat, x: int)
    requires Settled(calls, reqs, mem, spec) && id in calls && calls[id].issued >= calls[id].len
    requires calls[id].write || forall k {:trigger reqs[k]} :: k in reqs ==> reqs[k].call != id
    requires calls[id].pos <= x < calls[id].pos + calls[id].len && x !in calls[id].wild
    ensures var c := calls[id];
            if c.write then spec(c.file, x) == Some(mem(c.buf + x - c.pos)) else Agrees(spec(c.file, x), mem(c.buf + x - c.pos))
  {
    var c := calls[id];
    assert SettledAt(id, c, reqs, mem, spec, c.buf + x - c.pos);
  }

  lemma EndReturns(ss: seq<State>, es: seq<Event>, a: nat, id: nat, x: int)
    requires Run(ss, es) && a < |es| && es[a] == End(id)
    ensures id in ss[a].calls
    ensures var c, s := ss[a].calls[id], ss[a];
            c.pos <= x < c.pos + c.len && x !in c.wild ==>
              if c.write then s.spec(c.file, x) == Some(s.mem(c.buf + x - c.pos)) else Agrees(s.spec(c.file, x), s.mem(c.buf + x - c.pos))
  {
    RunInv(ss, es, a);
    assert StepAt(ss, es, a);
    var s := ss[a];
    var c := s.calls[id];
    if c.pos <= x < c.pos + c.len && x !in c.wild {
      Returns(s.calls, s.reqs, s.mem, s.spec, id, x);
    }
  }

  /** The events that may change byte x of file i: a write request whose sectors cover it, and unlinking. */
  predicate Touches(s: State, e: Event, i: nat, x: int) {
    match e
    case Issue(id, _) =>
      && id in s.calls
      && var c := s.calls[id];
      && c.write && c.file == i && c.issued < c.len
      && c.pos + c.issued <= x < c.pos + c.issued + SECTOR * Ch(c).nblk
    case Unlink(file) => file == i
    case _ => false
  }

  lemma SpecFrame(s: State, e: Event, s': State, i: nat, x: int)
    requires Step(s, e, s') && !Touches(s, e, i, x)
    ensures s'.spec(i, x) == s.spec(i, x)
  {
  }

  lemma RunFrame(ss: seq<State>, es: seq<Event>, a: nat, i: nat, x: int)
    requires Run(ss, es) && a < |es| && !Touches(ss[a], es[a], i, x)
    ensures ss[a + 1].spec(i, x) == ss[a].spec(i, x)
  {
    assert StepAt(ss, es, a);
    SpecFrame(ss[a], es[a], ss[a + 1], i, x);
  }

  lemma {:induction false} SpecKept(ss: seq<State>, es: seq<Event>, a: nat, b: nat, i: nat, x: int)
    requires Run(ss, es) && a <= b <= |es|
    requires forall m {:trigger es[m]} :: a <= m < b ==> !Touches(ss[m], es[m], i, x)
    ensures ss[b].spec(i, x) == ss[a].spec(i, x)
    decreases b - a
  {
    if a < b {
      RunFrame(ss, es, a, i, x);
      SpecKept(ss, es, a + 1, b, i, x);
    }
  }

  /**
   * Read after write. A read that returns at event b has, at every byte, what the last write to that byte
   * had in its buffer when it returned at event a, provided no write request covered that byte and nobody
   * unlinked the file in between. Files, positions, lengths, the other calls, the interleaving of requests
   * and the order in which the drives carry them out are arbitrary. Excepted are the bytes at which an even
   * earlier write was still waiting when the two calls issued their requests.
   */
  lemma LastWriteIsRead(ss: seq<State>, es: seq<Event>, a: nat, b: nat, w: nat, r: nat, x: nat)
    requires Run(ss, es) && a < b < |es| && es[a] == End(w) && es[b] == End(r)
    requires w in ss[a].calls && ss[a].calls[w].write && ss[a].calls[w].pos <= x < ss[a].calls[w].pos + ss[a].calls[w].len
    requires r in ss[b].calls && !ss[b].calls[r].write && ss[b].calls[r].pos <= x < ss[b].calls[r].pos + ss[b].calls[r].len
    requires ss[a].calls[w].file == ss[b].calls[r].file && x !in ss[a].calls[w].wild && x !in ss[b].calls[r].wild
    requires forall m {:trigger es[m]} :: a < m < b ==> !Touches(ss[m], es[m], ss[a].calls[w].file, x)
    ensures var cw, cr := ss[a].calls[w], ss[b].calls[r];
            ss[b].mem(cr.buf + x - cr.pos) == ss[a].mem(cw.buf + x - cw.pos)
  {
    EndReturns(ss, es, a, w, x);
    EndReturns(ss, es, b, r, x);
    RunFrame(ss, es, a, ss[a].calls[w].file, x);
    SpecKept(ss, es, a + 1, b, ss[a].calls[w].file, x);
  }

  // ---- the last request of a write ------------------------------------------------------

  /** The offset at which the last request of a write of this length starts. */
  function LastOff(pos: nat, len: int): nat {
    if len <= 0 then 0 else if pos % 4096 == 0 && len % 4096 == 0 then len - 4096 else (len - 1) / 512 * 512
  }

  /** It is the last multiple of the request size below the length. */
  lemma LastOffIs(pos: nat, len: int)
    requires len > 0
    ensures LastOff(pos, len) == (len - 1) / H.WriteSize(pos, len) * H.WriteSize(pos, len)
  {
    if pos % 4096 == 0 && len % 4096 == 0 {
      M.DivModUnique(len - 1, 4096, len / 4096 - 1, 4095);
    }
  }

  /** The byte lies in the sectors of the write's last request. */
  predicate InTail(c: Call, x: int) {
    c.write && c.len > 0 && c.pos + LastOff(c.pos, c.len) <= x < c.pos + Up(c.len)
  }

  lemma GridLast(o: nat, size: nat, len: int)
    requires size > 0 && H.OnGrid(o, size) && (size == SECTOR || size == BLKSZ) && 0 < len <= o + size
    ensures (len - 1) / size * size <= o
  {
    if o > 0 {
      M.DivBounds(len - 1, size, o / size + 1);
      assert (o / size + 1) * size == o + size;
      M.MulMono((len - 1) / size, o / size, size);
    } else {
      M.DivBounds(len - 1, size, 1);
    }
  }

  /** A request that is still under way when its write returns starts where the last one does. */
  lemma OnlyLast(c: Call, r: Pending)
    requires c.write && InCall(r, c) && !NotLast(c, r) && c.len > 0
    ensures LastOff(c.pos, c.len) <= r.o
    ensures c.issued >= c.len ==> forall x {:trigger Covers(r, c.file, x)} :: Covers(r, c.file, x) ==> InTail(c, x)
  {
    GridLast(r.o, SizeOf(c), c.len);
    LastOffIs(c.pos, c.len);
  }

  predicate OnDrive(at: Places, disks: seq<Store>, i: nat, x: int, b: byte) {
    (i, x) in at && at[(i, x)].0 < |disks| && disks[at[(i, x)].0](at[(i, x)].1) == b
  }

  /**
   * When a write returns, every byte below its last request is on its drive, whatever the drives still have
   * to do, the wild bytes excepted.
   */
  lemma DurableBelowLast(s: State, id: nat, x: int)
    requires Inv(s) && MayEnd(s, id) && s.calls[id].write
    requires var c := s.calls[id]; c.pos <= x < c.pos + LastOff(c.pos, c.len) && x !in c.wild
    ensures var c := s.calls[id]; OnDrive(At(s), s.disks, c.file, x, s.mem(c.buf + x - c.pos))
  {
    hide WriteOk, ReadOk, ReqOk, CallsOk, OwnersOk, Clear, Settled, NotLast, H.WriteSize, LastOff, Conserved;
    var c := s.calls[id];
    BelowLen(c.pos, c.len);
    Returns(s.calls, s.reqs, s.mem, s.spec, id, x);
    NoneWaits(At(s), s.calls, s.reqs, id, x);
  }

  lemma BelowLen(pos: nat, len: int)
    ensures len > 0 ==> LastOff(pos, len) < len
    ensures len <= 0 ==> LastOff(pos, len) == 0
  {
  }

  lemma NoneWaits(at: Places, calls: map<nat, Call>, reqs: map<Key, Pending>, id: nat, x: int)
    requires Injective(at) && OwnersOk(at, calls, reqs) && Clear(at, calls, reqs) && id in calls && calls[id].write
    requires calls[id].issued >= calls[id].len
    requires forall k {:trigger reqs[k]} :: k in reqs && reqs[k].call == id ==> !NotLast(calls[id], reqs[k])
    requires calls[id].pos <= x < calls[id].pos + LastOff(calls[id].pos, calls[id].len) && x !in calls[id].wild
    ensures (calls[id].file, x) in at && !Dirty(reqs, at[(calls[id].file, x)])
  {
    var c := calls[id];
    BelowLen(c.pos, c.len);
    assert ClearAt(at, id, c, reqs, x);
    forall k | k in reqs ensures !Waits(reqs[k], at[(c.file, x)]) {
      if Waits(reqs[k], at[(c.file, x)]) {
        OnlyLast(c, reqs[k]);
        InRange(at, reqs[k], c.file, x);
      }
    }
  }

  // ---- where earlier writes may still be waiting ----------------------------------------

  /** The bytes in the last requests of the writes that returned in the first i events. */
  ghost function Tails(ss: seq<State>, es: seq<Event>, i: nat): iset<(nat, int)>
    requires i <= |es| < |ss|
  {
    if i == 0 then iset{} else Tails(ss, es, i - 1) + TailAt(ss[i - 1], es[i - 1])
  }

  ghost function TailAt(s: State, e: Event): iset<(nat, int)> {
    if e.End? && e.id in s.calls then iset p: (nat, int) | p.0 == s.calls[e.id].file && InTail(s.calls[e.id], p.1) else iset{}
  }

  /** What ended writes left under way, and hence all wild bytes, lie in `tails`. */
  ghost predicate TailsOk(at: Places, calls: map<nat, Call>, reqs: map<Key, Pending>, tails: iset<(nat, int)>) {
    && (forall k {:trigger reqs[k]} :: k in reqs && reqs[k].call !in calls ==>
          Placed(at, reqs[k]) && forall x {:trigger Covers(reqs[k], reqs[k].file, x)} :: Covers(reqs[k], reqs[k].file, x) ==> (reqs[k].file, x) in tails)
    && (forall a, x {:trigger x in calls[a].wild} :: a in calls && x in calls[a].wild ==> (calls[a].file, x) in tails)
  }

  lemma IssueTails(at: Places, calls: map<nat, Call>, reqs: map<Key, Pending>, mem: Store, id: nat, k: Key, r: Pending, tails: iset<(nat, int)>)
    requires Injective(at) && CallsOk(calls) && OwnersOk(at, calls, reqs) && IsNext(at, calls, reqs, mem, id, k, r)
    requires TailsOk(at, calls, reqs, tails)
    ensures TailsOk(at, calls[id := Advance(calls[id], r.wild)], reqs[k := r], tails)
  {
    var c := calls[id];
    forall x | x in r.wild ensures (c.file, x) in tails {
      var l :| l in reqs && Waits(reqs[l], at[(c.file, x)]);
      WildTail(at, calls, reqs, mem, id, k, r, tails, x, l);
    }
  }

  lemma WildTail(at: Places, calls: map<nat, Call>, reqs: map<Key, Pending>, mem: Store, id: nat, k: Key, r: Pending,
                 tails: iset<(nat, int)>, x: int, l: Key)
    requires Injective(at) && CallsOk(calls) && OwnersOk(at, calls, reqs) && IsNext(at, calls, reqs, mem, id, k, r)
    requires TailsOk(at, calls, reqs, tails) && x in r.wild && l in reqs && Waits(reqs[l], at[(calls[id].file, x)])
    ensures (calls[id].file, x) in tails
  {
    var c := calls[id];
    InRange(at, reqs[l], c.file, x);
    assert Covers(reqs[l], reqs[l].file, x);
    if reqs[l].call in calls {
      ActiveElsewhere(c, calls[reqs[l].call], reqs[l], x, reqs[l].call == id);
    }
  }

  /** A request of an active write covers no byte of another call's next request, nor of its own call's. */
  lemma ActiveElsewhere(c: Call, d: Call, l: Pending, x: int, same: bool)
    requires CallOk(c) && CallOk(d) && c.issued < c.len && InCall(l, d) && l.write
    requires c.pos + c.issued <= x < c.pos + c.issued + SECTOR * Ch(c).nblk && (if same then c == d else !Clash(c, d))
    ensures !Covers(l, c.file, x)
  {
    NextFits(c, iset{});
    IssuedInRange(d);
  }

  lemma TailsExtend(at: Places, at': Places, calls: map<nat, Call>, reqs: map<Key, Pending>, tails: iset<(nat, int)>)
    requires TailsOk(at, calls, reqs, tails) && Extended(at, at')
    ensures TailsOk(at', calls, reqs, tails)
  {
    forall k | k in reqs && reqs[k].call !in calls ensures Placed(at', reqs[k]) {
      StillPlaced(at, at', reqs[k]);
    }
  }

  lemma IssueStepTails(s: State, id: nat, k: Key, s': State, tails: iset<(nat, int)>)
    requires Inv(s) && Issues(s, id, k, s') && TailsOk(At(s), s.calls, s.reqs, tails)
    ensures |s'.disks| > 0 && TailsOk(At(s'), s'.calls, s'.reqs, tails)
  {
    hide Issues, Core, Settled, Extended, TailsOk, PlacesOf, IsNext, Advance, NextReq, CallsOk, OwnersOk, Clear, Found, Allocates;
    IssueFields(s, id, k, s');
    Issued(s, id, k, s');
    MorePlaces(At(s), At(s'), s.calls, s.reqs);
    TailsExtend(At(s), At(s'), s.calls, s.reqs, tails);
    IssueTails(At(s'), s.calls, s.reqs, s.mem, id, k, s'.reqs[k], tails);
  }

  lemma EndTails(at: Places, calls: map<nat, Call>, reqs: map<Key, Pending>, id: nat, tails: iset<(nat, int)>)
    requires OwnersOk(at, calls, reqs) && TailsOk(at, calls, reqs, tails) && id in calls && calls[id].issued >= calls[id].len
    requires forall k {:trigger reqs[k]} :: k in reqs && reqs[k].call == id ==> calls[id].write && !NotLast(calls[id], reqs[k])
    ensures TailsOk(at, calls - {id}, reqs, tails + iset p: (nat, int) | p.0 == calls[id].file && InTail(calls[id], p.1))
  {
    var c := calls[id];
    var tails' := tails + iset p: (nat, int) | p.0 == c.file && InTail(c, p.1);
    forall k, x | k in reqs && reqs[k].call !in calls - {id} && Covers(reqs[k], reqs[k].file, x) ensures (reqs[k].file, x) in tails' {
      if reqs[k].call == id {
        EndedTail(c, reqs[k], x);
      }
    }
  }

  lemma EndedTail(c: Call, r: Pending, x: int)
    requires c.write && InCall(r, c) && !NotLast(c, r) && c.issued >= c.len && Covers(r, c.file, x)
    ensures InTail(c, x)
  {
    if c.len > 0 {
      OnlyLast(c, r);
    }
  }

  lemma StageTails(at: Places, calls: map<nat, Call>, reqs: map<Key, Pending>, tails: iset<(nat, int)>, k: Key, stage: Stage)
    requires TailsOk(at, calls, reqs, tails) && k in reqs
    ensures TailsOk(at, calls, reqs[k := reqs[k].(stage := stage)], tails)
  {
    var reqs' := reqs[k := reqs[k].(stage := stage)];
    forall l | l in reqs' && reqs'[l].call !in calls
      ensures Placed(at, reqs'[l]) && forall x {:trigger Covers(reqs'[l], reqs'[l].file, x)} :: Covers(reqs'[l], reqs'[l].file, x) ==> (reqs'[l].file, x) in tails
    {
      assert Placed(at, reqs[l]);
      forall x | Covers(reqs'[l], reqs'[l].file, x) ensures (reqs'[l].file, x) in tails {
        assert Covers(reqs[l], reqs[l].file, x);
      }
    }
  }

  lemma ExecuteTails(s: State, k: Key, sectors: seq<byte>, tails: iset<(nat, int)>)
    requires |s.disks| > 0 && CanExecute(s, k, sectors) && TailsOk(At(s), s.calls, s.reqs, tails)
    ensures TailsOk(At(s), s.calls, Executes(s, k, sectors).reqs, tails)
  {
    hide At, TailsOk;
    StageTails(At(s), s.calls, s.reqs, tails, k, if s.reqs[k].write then Volume.Executed([]) else Volume.Executed(sectors));
  }

  /** As long as no file is unlinked the tails of the returned writes hold all that may still be waiting. */
  lemma StepTails(s: State, e: Event, s': State, tails: iset<(nat, int)>)
    requires Inv(s) && Step(s, e, s') && !e.Unlink? && TailsOk(At(s), s.calls, s.reqs, tails)
    ensures |s'.disks| > 0 && TailsOk(At(s'), s'.calls, s'.reqs, tails + TailAt(s, e))
  {
    hide Issues, Core, Settled, Clear, CallsOk, SpecErase, PlacesOf, Placed, InTail, Conserved, FilesOk;
    match e
    case Issue(id, k) => IssueStepTails(s, id, k, s', tails);
    case Execute(k, sectors) => ExecuteTails(s, k, sectors, tails);
    case End(id) => EndTails(At(s), s.calls, s.reqs, id, tails);
    case Open(name) => OpenPlaces(s.fs, |s.disks|, name);
    case _ =>
  }

  ghost predicate StateTails(s: State, tails: iset<(nat, int)>) {
    |s.disks| > 0 && TailsOk(At(s), s.calls, s.reqs, tails)
  }

  lemma TailsAt(ss: seq<State>, es: seq<Event>, i: nat, tails: iset<(nat, int)>)
    requires Run(ss, es) && i < |es| && !es[i].Unlink? && StateTails(ss[i], tails)
    ensures StateTails(ss[i + 1], tails + TailAt(ss[i], es[i]))
  {
    RunInv(ss, es, i);
    assert StepAt(ss, es, i);
    StepTails(ss[i], es[i], ss[i + 1], tails);
  }

  lemma {:induction false} RunTails(ss: seq<State>, es: seq<Event>, i: nat)
    requires Run(ss, es) && i <= |es| && forall j {:trigger es[j]} :: 0 <= j < i ==> !es[j].Unlink?
    ensures StateTails(ss[i], Tails(ss, es, i))
  {
    hide Init, Step, StateTails, TailAt;
    if i > 0 {
      RunTails(ss, es, i - 1);
      TailsAt(ss, es, i - 1, Tails(ss, es, i - 1));
    } else {
      InitTails(ss[0]);
    }
  }

  lemma InitTails(s: State)
    requires Init(s)
    ensures StateTails(s, iset{})
  {
  }

  lemma {:induction false} TailsGrow(ss: seq<State>, es: seq<Event>, a: nat, b: nat)
    requires a <= b <= |es| < |ss|
    ensures Tails(ss, es, a) <= Tails(ss, es, b)
    decreases b - a
  {
    if a < b {
      TailsGrow(ss, es, a, b - 1);
    }
  }

  /** As long as no file is unlinked a byte outside those tails is not wild. */
  lemma NotWild(ss: seq<State>, es: seq<Event>, i: nat, id: nat, x: int)
    requires Run(ss, es) && i <= |es| && forall j {:trigger es[j]} :: 0 <= j < i ==> !es[j].Unlink?
    requires id in ss[i].calls && (ss[i].calls[id].file, x) !in Tails(ss, es, i)
    ensures x !in ss[i].calls[id].wild
  {
    RunTails(ss, es, i);
  }

  /**
   * Read after write, as a caller can tell: where files stay linked, the exception is at most the sectors of
   * the last requests of writes that have returned.
   */
  lemma CallerReads(ss: seq<State>, es: seq<Event>, a: nat, b: nat, w: nat, r: nat, x: nat)
    requires Run(ss, es) && a < b < |es| && es[a] == End(w) && es[b] == End(r)
    requires w in ss[a].calls && ss[a].calls[w].write && ss[a].calls[w].pos <= x < ss[a].calls[w].pos + ss[a].calls[w].len
    requires r in ss[b].calls && !ss[b].calls[r].write && ss[b].calls[r].pos <= x < ss[b].calls[r].pos + ss[b].calls[r].len
    requires ss[a].calls[w].file == ss[b].calls[r].file
    requires forall m {:trigger es[m]} :: a < m < b ==> !Touches(ss[m], es[m], ss[a].calls[w].file, x)
    requires (forall j {:trigger es[j]} :: 0 <= j < b ==> !es[j].Unlink?) && (ss[a].calls[w].file, x) !in Tails(ss, es, b)
    ensures var cw, cr := ss[a].calls[w], ss[b].calls[r];
            ss[b].mem(cr.buf + x - cr.pos) == ss[a].mem(cw.buf + x - cw.pos)
  {
    TailsGrow(ss, es, a, b);
    NotWild(ss, es, a, w, x);
    NotWild(ss, es, b, r, x);
    LastWriteIsRead(ss, es, a, b, w, r, x);
  }
}
