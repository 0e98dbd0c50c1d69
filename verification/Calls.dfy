/** Calls of read_impl and write_impl in progress, next to the requests they have issued. */
module Calls {
  import opened Memory
  import opened Wrappers
  import opened Sizes
  import opened Layout
  import opened Volume
  import H = HookIo
  import M = Modular

  /**
   * A call: `len` is clipped already, `issued` is the loop variable j, `buf` the caller's buffer. `wild` are
   * the bytes of the file at which an earlier write was still waiting when the call issued their request.
   */
  datatype Call = Call(write: bool, file: nat, pos: nat, len: int, buf: int, issued: nat, wild: iset<int>)

  function SizeOf(c: Call): int {
    if c.write then H.WriteSize(c.pos, c.len) else H.ReadSize(c.pos, c.len)
  }

  /** The bytes of its range that a call has issued. */
  function Done(c: Call): int {
    if c.issued < c.len then c.issued else c.len
  }

  /** The length of the call's range in whole sectors. */
  function Up(len: int): nat {
    if len > 0 then SECTOR * H.Sectors(len) else 0
  }

  /** Where the sectors of the requests issued so far end, from the call's position on. */
  function Reach(c: Call): nat {
    if c.issued < c.len then c.issued else Up(c.len)
  }

  ghost predicate CallOk(c: Call) {
    && c.pos % SECTOR == 0 && (c.issued < c.len ==> H.OnGrid(c.issued, SizeOf(c)))
    && forall x {:trigger x in c.wild} :: x in c.wild ==> c.pos <= x < c.pos + Reach(c)
  }

  /** Two calls on overlapping sectors of a file, one of them a write. */
  predicate Clash(c: Call, d: Call) {
    && c.file == d.file && (c.write || d.write)
    && c.pos < d.pos + Up(d.len) && d.pos < c.pos + Up(c.len)
  }

  /** A buffer that a read fills is no other call's buffer. */
  predicate Apart(c: Call, d: Call) {
    (c.write && d.write) || c.len <= 0 || d.len <= 0 || c.buf + c.len <= d.buf || d.buf + d.len <= c.buf
  }

  /** `r` is one of the requests `c` has issued. */
  ghost predicate InCall(r: Pending, c: Call) {
    && r.write == c.write && r.file == c.file && r.off == c.pos + r.o && r.buf == c.buf + r.o
    && H.OnGrid(r.o, SizeOf(c))
    && r.o + r.len <= Done(c)
    && r.o + SECTOR * r.nblk <= Reach(c)
    && forall x {:trigger x in r.wild} {:trigger x in c.wild} :: Covers(r, r.file, x) ==> (x in r.wild <==> x in c.wild)
  }

  ghost predicate CallsOk(calls: map<nat, Call>) {
    && (forall a {:trigger calls[a]} :: a in calls ==> CallOk(calls[a]))
    && (forall a, b {:trigger calls[a], calls[b]} :: a in calls && b in calls && a != b ==>
          !Clash(calls[a], calls[b]) && Apart(calls[a], calls[b]))
  }

  /** A request belongs to an active call and is placed, or is a write that an ended call left behind. */
  ghost predicate OwnersOk(at: Places, calls: map<nat, Call>, reqs: map<Key, Pending>) {
    forall k {:trigger reqs[k]} :: k in reqs ==>
      if reqs[k].call in calls then InCall(reqs[k], calls[reqs[k].call]) && Placed(at, reqs[k]) else reqs[k].write
  }

  /** No write of another call is waiting at the byte. */
  ghost predicate ClearAt(at: Places, id: nat, c: Call, reqs: map<Key, Pending>, x: int) {
    && (c.file, x) in at
    && forall k {:trigger reqs[k]} :: k in reqs && Waits(reqs[k], at[(c.file, x)]) ==> reqs[k].call == id
  }

  /** What an active call has issued is its own, where it is not wild. */
  ghost predicate Clear(at: Places, calls: map<nat, Call>, reqs: map<Key, Pending>) {
    forall a, x {:trigger ClearAt(at, a, calls[a], reqs, x)} ::
      a in calls && calls[a].pos <= x < calls[a].pos + Done(calls[a]) && x !in calls[a].wild ==> ClearAt(at, a, calls[a], reqs, x)
  }

  /** The byte at address x of the caller's buffer is still to be delivered. */
  ghost predicate Owes(reqs: map<Key, Pending>, id: nat, x: int) {
    exists k {:trigger reqs[k]} ::
      k in reqs && reqs[k].call == id && !reqs[k].write && reqs[k].buf <= x < reqs[k].buf + reqs[k].len
  }

  /** What a call has done so far: a write's bytes are the file's, a read's bytes are there or on their way. */
  ghost predicate SettledAt(id: nat, c: Call, reqs: map<Key, Pending>, mem: Store, spec: ByteMap, x: int) {
    var i := c.pos + x - c.buf;
    i in c.wild ||
    if c.write then spec(c.file, i) == Some(mem(x)) else Owes(reqs, id, x) || Agrees(spec(c.file, i), mem(x))
  }

  ghost predicate Settled(calls: map<nat, Call>, reqs: map<Key, Pending>, mem: Store, spec: ByteMap) {
    forall a, x {:trigger calls[a], mem(x)} :: a in calls && calls[a].buf <= x < calls[a].buf + Done(calls[a]) ==>
      SettledAt(a, calls[a], reqs, mem, spec, x)
  }

  // ---- issuing a request ----------------------------------------------------------------

  function Ch(c: Call): H.Chunk
    requires c.issued < c.len
  {
    H.ChunkAt(c.issued, c.len, SizeOf(c))
  }

  /** The call after its next request was issued. */
  function Advance(c: Call, wild: iset<int>): Call
    requires c.issued < c.len
  {
    H.SizesGood(c.pos, c.len);
    c.(issued := c.issued + SizeOf(c), wild := c.wild + wild)
  }

  /** The next request of a call, at sector `dlba` of drive `did`. */
  function NextReq(id: nat, c: Call, mem: Store, did: nat, dlba: nat, wild: iset<int>): Pending
    requires c.issued < c.len
  {
    H.SizesGood(c.pos, c.len);
    var ch := Ch(c);
    Pending(id, ch.off, c.write, c.file, c.pos + ch.off, ch.nblk, ch.len, c.buf + ch.off,
            if c.write then Get(mem, c.buf + ch.off, ch.len) else [], did, dlba, wild, Waiting)
  }

  lemma SectorsUp(j: nat, n: nat, len: int, nblk: nat)
    requires j % SECTOR == 0 && n > 0 && j + n <= len && SECTOR * (nblk - 1) < n
    ensures j + SECTOR * nblk <= Up(len)
  {
  }

  /** The bytes lie in the sectors of the call's next request. */
  ghost predicate Ahead(c: Call, wild: iset<int>)
    requires c.issued < c.len
  {
    forall x {:trigger x in wild} :: x in wild ==> c.pos + c.issued <= x < c.pos + c.issued + SECTOR * Ch(c).nblk
  }

  lemma NextFits(c: Call, wild: iset<int>)
    requires CallOk(c) && c.issued < c.len
    ensures H.Fits(Ch(c), c.pos)
    ensures c.issued % SECTOR == 0
    ensures c.issued + SECTOR * Ch(c).nblk <= Reach(Advance(c, wild))
    ensures Ahead(c, wild) ==> CallOk(Advance(c, wild))
    ensures Done(c) == c.issued && Done(Advance(c, wild)) == c.issued + Ch(c).len
  {
    H.SizesGood(c.pos, c.len);
    H.ChunkFits(c.pos, c.len, SizeOf(c), c.issued);
    if c.issued > 0 && SizeOf(c) == BLKSZ {
      M.DivModUnique(c.issued, SECTOR, 8 * (c.issued / BLKSZ), 0);
    }
    SectorsUp(c.issued, Ch(c).len, c.len, Ch(c).nblk);
  }

  /** What a call knows of its next request: `r` is that, placed, with the wild bytes of its range. */
  ghost predicate IsNext(at: Places, calls: map<nat, Call>, reqs: map<Key, Pending>, mem: Store, id: nat, k: Key, r: Pending) {
    && id in calls && calls[id].issued < calls[id].len && k !in reqs
    && r == NextReq(id, calls[id], mem, r.did, r.dlba, r.wild)
    && Placed(at, r) && r.wild == WildIn(at, reqs, r.file, r.off, SECTOR * r.nblk)
  }

  lemma NextCalls(calls: map<nat, Call>, id: nat, wild: iset<int>)
    requires CallsOk(calls) && id in calls && calls[id].issued < calls[id].len && Ahead(calls[id], wild)
    ensures CallsOk(calls[id := Advance(calls[id], wild)])
  {
    NextFits(calls[id], wild);
  }

  lemma NextOwned(at: Places, calls: map<nat, Call>, reqs: map<Key, Pending>, mem: Store, id: nat, k: Key, r: Pending)
    requires CallsOk(calls) && OwnersOk(at, calls, reqs) && IsNext(at, calls, reqs, mem, id, k, r)
    ensures OwnersOk(at, calls[id := Advance(calls[id], r.wild)], reqs[k := r])
  {
    var c := calls[id];
    NextFits(c, r.wild);
    var calls', reqs' := calls[id := Advance(c, r.wild)], reqs[k := r];
    forall l | l in reqs'
      ensures if reqs'[l].call in calls' then InCall(reqs'[l], calls'[reqs'[l].call]) && Placed(at, reqs'[l]) else reqs'[l].write
    {
      if l != k && reqs[l].call == id {
        StillInCall(reqs[l], c, r.wild);
      }
    }
  }

  lemma StillInCall(r: Pending, c: Call, wild: iset<int>)
    requires CallOk(c) && c.issued < c.len && InCall(r, c) && Ahead(c, wild)
    ensures InCall(r, Advance(c, wild))
  {
    NextFits(c, wild);
  }

  /** A new write meets no read under way. */
  lemma NextMeetsNoRead(at: Places, calls: map<nat, Call>, reqs: map<Key, Pending>, mem: Store, id: nat, k: Key, r: Pending, l: Key)
    requires CallsOk(calls) && OwnersOk(at, calls, reqs) && IsNext(at, calls, reqs, mem, id, k, r) && r.write
    requires l in reqs && !reqs[l].write
    ensures !Meets(r, reqs[l])
  {
    var c, d := calls[id], calls[reqs[l].call];
    NextFits(c, r.wild);
    assert InCall(reqs[l], d);
    assert !Clash(c, d);
    assert r.off + SECTOR * r.nblk <= c.pos + Up(c.len);
    IssuedInRange(d);
  }

  lemma IssuedInRange(c: Call)
    requires CallOk(c)
    ensures c.issued < c.len ==> c.issued <= Up(c.len)
    ensures Done(c) <= Up(c.len)
  {
  }

  /** The new request keeps the other calls' bytes clear, and its own are clear but for the wild ones. */
  lemma NextClear(at: Places, calls: map<nat, Call>, reqs: map<Key, Pending>, mem: Store, id: nat, k: Key, r: Pending)
    requires Injective(at) && CallsOk(calls) && Clear(at, calls, reqs) && IsNext(at, calls, reqs, mem, id, k, r)
    ensures Clear(at, calls[id := Advance(calls[id], r.wild)], reqs[k := r])
  {
    var c := calls[id];
    var calls', reqs' := calls[id := Advance(c, r.wild)], reqs[k := r];
    NextFits(c, r.wild);
    forall a, x | a in calls' && calls'[a].pos <= x < calls'[a].pos + Done(calls'[a]) && x !in calls'[a].wild
      ensures ClearAt(at, a, calls'[a], reqs', x)
    {
      if a == id && x >= c.pos + c.issued {
        NewByteClear(at, id, Advance(c, r.wild), reqs, k, r, x);
      } else {
        assert ClearAt(at, a, calls[a], reqs, x);
        OldByteClear(at, c, a, calls[a], reqs, k, r, x);
      }
    }
  }

  lemma NewByteClear(at: Places, id: nat, c: Call, reqs: map<Key, Pending>, k: Key, r: Pending, x: int)
    requires r.call == id && r.file == c.file && Placed(at, r) && r.off <= x < r.off + SECTOR * r.nblk && x !in r.wild
    requires r.wild == WildIn(at, reqs, r.file, r.off, SECTOR * r.nblk)
    ensures ClearAt(at, id, c, reqs[k := r], x)
  {
    assert (r.file, x) in at;
    forall l | l in reqs ensures !Waits(reqs[l], at[(c.file, x)]) {
      if Waits(reqs[l], at[(c.file, x)]) {
        IsWild(at, reqs, l, r, x);
      }
    }
  }

  lemma OldByteClear(at: Places, c: Call, a: nat, d: Call, reqs: map<Key, Pending>, k: Key, r: Pending, x: int)
    requires Injective(at) && CallOk(c) && c.issued < c.len && Placed(at, r) && ClearAt(at, a, d, reqs, x)
    requires r.write == c.write && r.file == c.file && r.off == c.pos + c.issued && r.nblk == Ch(c).nblk
    requires d.pos <= x < d.pos + Done(d) && CallOk(d) && (a == r.call || !Clash(c, d))
    ensures ClearAt(at, a, d, reqs[k := r], x)
  {
    NextFits(c, iset{});
    IssuedInRange(d);
    if a != r.call && Waits(r, at[(d.file, x)]) {
      InRange(at, r, d.file, x);
    }
  }

  // ---- what each step leaves settled ----------------------------------------------------

  lemma OwesMore(reqs: map<Key, Pending>, k: Key, r: Pending, id: nat, x: int)
    requires k !in reqs && Owes(reqs, id, x)
    ensures Owes(reqs[k := r], id, x)
  {
    var l :| l in reqs && reqs[l].call == id && !reqs[l].write && reqs[l].buf <= x < reqs[l].buf + reqs[l].len;
    assert reqs[k := r][l] == reqs[l];
  }

  lemma ReadIssued(calls: map<nat, Call>, reqs: map<Key, Pending>, mem: Store, spec: ByteMap, id: nat, k: Key, r: Pending)
    requires CallsOk(calls) && Settled(calls, reqs, mem, spec) && id in calls && calls[id].issued < calls[id].len
    requires k !in reqs && r == NextReq(id, calls[id], mem, r.did, r.dlba, r.wild) && !r.write
    ensures Settled(calls[id := Advance(calls[id], r.wild)], reqs[k := r], mem, spec)
  {
    var c := calls[id];
    NextFits(c, r.wild);
    var calls', reqs' := calls[id := Advance(c, r.wild)], reqs[k := r];
    forall a, x | a in calls' && calls'[a].buf <= x < calls'[a].buf + Done(calls'[a])
      ensures SettledAt(a, calls'[a], reqs', mem, spec, x)
    {
      if a == id && x >= c.buf + c.issued {
        assert reqs'[k] == r;
      } else {
        assert SettledAt(a, calls[a], reqs, mem, spec, x);
        if Owes(reqs, a, x) {
          OwesMore(reqs, k, r, a, x);
        }
      }
    }
  }

  lemma WriteIssued(calls: map<nat, Call>, reqs: map<Key, Pending>, mem: Store, spec: ByteMap, id: nat, k: Key, r: Pending)
    requires CallsOk(calls) && Settled(calls, reqs, mem, spec) && id in calls && calls[id].issued < calls[id].len
    requires k !in reqs && r == NextReq(id, calls[id], mem, r.did, r.dlba, r.wild) && r.write
    ensures Settled(calls[id := Advance(calls[id], r.wild)], reqs[k := r], mem, SpecWrite(spec, r.file, r.off, r.data, SECTOR * r.nblk, r.wild))
  {
    var c := calls[id];
    var calls', reqs' := calls[id := Advance(c, r.wild)], reqs[k := r];
    var spec' := SpecWrite(spec, r.file, r.off, r.data, SECTOR * r.nblk, r.wild);
    forall a, x | a in calls' && calls'[a].buf <= x < calls'[a].buf + Done(calls'[a])
      ensures SettledAt(a, calls'[a], reqs', mem, spec', x)
    {
      if a != id {
        OtherStays(c, a, calls[a], reqs, mem, spec, k, r, x);
      } else {
        WriteSettles(id, c, reqs, mem, spec, k, r, x);
      }
    }
  }

  lemma OtherStays(c: Call, a: nat, d: Call, reqs: map<Key, Pending>, mem: Store, spec: ByteMap, k: Key, r: Pending, x: int)
    requires CallOk(c) && c.write && c.issued < c.len && r == NextReq(r.call, c, mem, r.did, r.dlba, r.wild) && k !in reqs
    requires !Clash(c, d) && d.buf <= x < d.buf + Done(d) && SettledAt(a, d, reqs, mem, spec, x)
    ensures SettledAt(a, d, reqs[k := r], mem, SpecWrite(spec, r.file, r.off, r.data, SECTOR * r.nblk, r.wild), x)
  {
    OutOfTheWay(c, d, mem, spec, r, x);
    if Owes(reqs, a, x) {
      OwesMore(reqs, k, r, a, x);
    }
  }

  lemma OutOfTheWay(c: Call, d: Call, mem: Store, spec: ByteMap, r: Pending, x: int)
    requires CallOk(c) && c.write && c.issued < c.len && r == NextReq(r.call, c, mem, r.did, r.dlba, r.wild)
    requires !Clash(c, d) && d.buf <= x < d.buf + Done(d)
    ensures var i := d.pos + x - d.buf;
            SpecWrite(spec, r.file, r.off, r.data, SECTOR * r.nblk, r.wild)(d.file, i) == spec(d.file, i)
  {
    NextFits(c, r.wild);
    assert Done(d) <= d.len <= Up(d.len);
  }

  lemma WriteSettles(id: nat, c: Call, reqs: map<Key, Pending>, mem: Store, spec: ByteMap, k: Key, r: Pending, x: int)
    requires CallOk(c) && c.write && c.issued < c.len && r == NextReq(id, c, mem, r.did, r.dlba, r.wild)
    requires c.buf <= x < c.buf + Done(Advance(c, r.wild)) && (x < c.buf + Done(c) ==> SettledAt(id, c, reqs, mem, spec, x))
    ensures SettledAt(id, Advance(c, r.wild), reqs[k := r], mem, SpecWrite(spec, r.file, r.off, r.data, SECTOR * r.nblk, r.wild), x)
  {
    NextFits(c, r.wild);
  }

  /** A read request's bytes arrive in the part of its own call's buffer that they belong to. */
  lemma ReadDelivered(at: Places, calls: map<nat, Call>, reqs: map<Key, Pending>, mem: Store, spec: ByteMap, k: Key, got: seq<byte>)
    requires CallsOk(calls) && OwnersOk(at, calls, reqs) && Settled(calls, reqs, mem, spec) && k in reqs && !reqs[k].write
    requires reqs[k].len <= |got| && reqs[k].len <= SECTOR * reqs[k].nblk
    requires forall x {:trigger spec(reqs[k].file, x)} :: reqs[k].off <= x < reqs[k].off + reqs[k].len && x !in reqs[k].wild ==>
               Agrees(spec(reqs[k].file, x), got[x - reqs[k].off])
    ensures Settled(calls, reqs - {k}, Put(mem, reqs[k].buf, got[..reqs[k].len]), spec)
  {
    var r := reqs[k];
    var reqs', mem' := reqs - {k}, Put(mem, r.buf, got[..r.len]);
    forall a, x | a in calls && calls[a].buf <= x < calls[a].buf + Done(calls[a])
      ensures SettledAt(a, calls[a], reqs', mem', spec, x)
    {
      assert SettledAt(a, calls[a], reqs, mem, spec, x);
      if a == r.call && r.buf <= x < r.buf + r.len {
        var i := r.off + x - r.buf;
        assert Covers(r, r.file, i) && i == calls[a].pos + x - calls[a].buf;
        assert i in r.wild || Agrees(spec(r.file, i), got[x - r.buf]);
      } else {
        OwesWithout(reqs, k, a, x);
      }
    }
  }

  lemma OwesWithout(reqs: map<Key, Pending>, k: Key, id: nat, x: int)
    requires k in reqs && !(reqs[k].call == id && !reqs[k].write && reqs[k].buf <= x < reqs[k].buf + reqs[k].len)
    ensures Owes(reqs, id, x) ==> Owes(reqs - {k}, id, x)
  {
    if Owes(reqs, id, x) {
      var l :| l in reqs && reqs[l].call == id && !reqs[l].write && reqs[l].buf <= x < reqs[l].buf + reqs[l].len;
      assert (reqs - {k})[l] == reqs[l];
    }
  }

  lemma WriteOver(calls: map<nat, Call>, reqs: map<Key, Pending>, mem: Store, spec: ByteMap, k: Key)
    requires Settled(calls, reqs, mem, spec) && k in reqs && reqs[k].write
    ensures Settled(calls, reqs - {k}, mem, spec)
  {
    forall a, x | a in calls && calls[a].buf <= x < calls[a].buf + Done(calls[a])
      ensures SettledAt(a, calls[a], reqs - {k}, mem, spec, x)
    {
      assert SettledAt(a, calls[a], reqs, mem, spec, x);
      OwesWithout(reqs, k, a, x);
    }
  }

  /** A request that has run or is over makes no byte less clear. */
  lemma FewerClear(at: Places, calls: map<nat, Call>, reqs: map<Key, Pending>, reqs': map<Key, Pending>)
    requires Clear(at, calls, reqs)
    requires forall k {:trigger reqs'[k]} :: k in reqs' && reqs'[k].write && reqs'[k].stage.Waiting? ==> k in reqs && reqs[k] == reqs'[k]
    ensures Clear(at, calls, reqs')
  {
    forall a, x | a in calls && calls[a].pos <= x < calls[a].pos + Done(calls[a]) && x !in calls[a].wild
      ensures ClearAt(at, a, calls[a], reqs', x)
    {
      assert ClearAt(at, a, calls[a], reqs, x);
    }
  }

  lemma Restaged(at: Places, calls: map<nat, Call>, reqs: map<Key, Pending>, mem: Store, spec: ByteMap, k: Key, stage: Stage)
    requires OwnersOk(at, calls, reqs) && Settled(calls, reqs, mem, spec) && k in reqs
    ensures OwnersOk(at, calls, reqs[k := reqs[k].(stage := stage)])
    ensures Settled(calls, reqs[k := reqs[k].(stage := stage)], mem, spec)
  {
    var reqs' := reqs[k := reqs[k].(stage := stage)];
    forall a, x | a in calls && calls[a].buf <= x < calls[a].buf + Done(calls[a])
      ensures SettledAt(a, calls[a], reqs', mem, spec, x)
    {
      assert SettledAt(a, calls[a], reqs, mem, spec, x);
      if Owes(reqs, a, x) {
        var l :| l in reqs && reqs[l].call == a && !reqs[l].write && reqs[l].buf <= x < reqs[l].buf + reqs[l].len;
        assert reqs'[l].call == a;
      }
    }
    assert Placed(at, reqs[k]) ==> Placed(at, reqs'[k]);
  }

  /**
   * A call may begin when no call in progress is in its way; requests that ended writes left under way do not
   * matter. Call numbers are the model's own names, so a new one is fresh.
   */
  ghost predicate MayBegin(calls: map<nat, Call>, reqs: map<Key, Pending>, id: nat, c: Call) {
    && id !in calls && (forall k {:trigger reqs[k]} :: k in reqs ==> reqs[k].call != id)
    && c.issued == 0 && c.wild == iset{} && c.pos % SECTOR == 0
    && (forall a {:trigger calls[a]} :: a in calls ==> !Clash(c, calls[a]) && Apart(c, calls[a]))
  }

  lemma Begun(at: Places, calls: map<nat, Call>, reqs: map<Key, Pending>, mem: Store, spec: ByteMap, id: nat, c: Call)
    requires CallsOk(calls) && OwnersOk(at, calls, reqs) && Settled(calls, reqs, mem, spec) && MayBegin(calls, reqs, id, c)
    ensures CallsOk(calls[id := c]) && OwnersOk(at, calls[id := c], reqs) && Settled(calls[id := c], reqs, mem, spec)
  {
    var calls' := calls[id := c];
    forall a, x | a in calls' && calls'[a].buf <= x < calls'[a].buf + Done(calls'[a])
      ensures SettledAt(a, calls'[a], reqs, mem, spec, x)
    {
      assert SettledAt(a, calls[a], reqs, mem, spec, x);
    }
    forall a, b | a in calls' && b in calls' && a != b ensures !Clash(calls'[a], calls'[b]) && Apart(calls'[a], calls'[b]) {
      if a != id && b != id {
        assert !Clash(calls[a], calls[b]) && Apart(calls[a], calls[b]);
      }
    }
  }

  lemma BegunClear(at: Places, calls: map<nat, Call>, reqs: map<Key, Pending>, id: nat, c: Call)
    requires Clear(at, calls, reqs) && MayBegin(calls, reqs, id, c)
    ensures Clear(at, calls[id := c], reqs)
  {
    var calls' := calls[id := c];
    forall a, x | a in calls' && calls'[a].pos <= x < calls'[a].pos + Done(calls'[a]) && x !in calls'[a].wild
      ensures ClearAt(at, a, calls'[a], reqs, x)
    {
      assert ClearAt(at, a, calls[a], reqs, x);
    }
  }

  /** More places change nothing for what is under way. */
  lemma MorePlaces(at: Places, at': Places, calls: map<nat, Call>, reqs: map<Key, Pending>)
    requires OwnersOk(at, calls, reqs) && Clear(at, calls, reqs) && Extended(at, at')
    ensures OwnersOk(at', calls, reqs) && Clear(at', calls, reqs)
  {
    forall a, x | a in calls && calls[a].pos <= x < calls[a].pos + Done(calls[a]) && x !in calls[a].wild
      ensures ClearAt(at', a, calls[a], reqs, x)
    {
      assert ClearAt(at, a, calls[a], reqs, x);
    }
    forall k | k in reqs && reqs[k].call in calls ensures Placed(at', reqs[k]) {
      StillPlaced(at, at', reqs[k]);
    }
  }

  lemma StillPlaced(at: Places, at': Places, r: Pending)
    requires Placed(at, r)
    requires forall x {:trigger at[(r.file, x)]} :: (r.file, x) in at ==> (r.file, x) in at' && at'[(r.file, x)] == at[(r.file, x)]
    ensures Placed(at', r)
  {
    forall x | r.off <= x < r.off + SECTOR * r.nblk
      ensures (r.file, x) in at' && at'[(r.file, x)] == (r.did, SECTOR * r.dlba + x - r.off)
    {
      assert at[(r.file, x)] == (r.did, SECTOR * r.dlba + x - r.off);
    }
  }

  /** A file without calls may go. */
  lemma FewerPlaces(at: Places, at': Places, calls: map<nat, Call>, reqs: map<Key, Pending>, file: nat)
    requires OwnersOk(at, calls, reqs) && Clear(at, calls, reqs)
    requires forall p {:trigger p in at'} :: p in at' <==> p in at && p.0 != file
    requires forall p {:trigger at'[p]} :: p in at' ==> at'[p] == at[p]
    requires forall a {:trigger calls[a]} :: a in calls ==> calls[a].file != file
    ensures OwnersOk(at', calls, reqs) && Clear(at', calls, reqs)
    ensures forall k {:trigger reqs[k]} :: k in reqs && !reqs[k].write ==> reqs[k].file != file
  {
    forall a, x | a in calls && calls[a].pos <= x < calls[a].pos + Done(calls[a]) && x !in calls[a].wild
      ensures ClearAt(at', a, calls[a], reqs, x)
    {
      assert ClearAt(at, a, calls[a], reqs, x);
    }
    forall k | k in reqs && reqs[k].call in calls ensures Placed(at', reqs[k]) {
      assert reqs[k].file == calls[reqs[k].call].file;
      StillPlaced(at, at', reqs[k]);
    }
  }

  /** A write may return with requests under way, a read may not. */
  lemma Ended(at: Places, calls: map<nat, Call>, reqs: map<Key, Pending>, mem: Store, spec: ByteMap, id: nat)
    requires CallsOk(calls) && OwnersOk(at, calls, reqs) && Settled(calls, reqs, mem, spec) && Clear(at, calls, reqs) && id in calls
    requires calls[id].write || forall k {:trigger reqs[k]} :: k in reqs ==> reqs[k].call != id
    ensures CallsOk(calls - {id}) && OwnersOk(at, calls - {id}, reqs) && Settled(calls - {id}, reqs, mem, spec)
    ensures Clear(at, calls - {id}, reqs)
  {
    var calls' := calls - {id};
    forall a, x | a in calls' && calls'[a].buf <= x < calls'[a].buf + Done(calls'[a])
      ensures SettledAt(a, calls'[a], reqs, mem, spec, x)
    {
      assert SettledAt(a, calls[a], reqs, mem, spec, x);
    }
    forall a, x | a in calls' && calls'[a].pos <= x < calls'[a].pos + Done(calls'[a]) && x !in calls'[a].wild
      ensures ClearAt(at, a, calls'[a], reqs, x)
    {
      assert ClearAt(at, a, calls[a], reqs, x);
    }
    forall k | k in reqs
      ensures if reqs[k].call in calls' then InCall(reqs[k], calls'[reqs[k].call]) && Placed(at, reqs[k]) else reqs[k].write
    {
      if reqs[k].call in calls {
        assert InCall(reqs[k], calls[reqs[k].call]);
      }
    }
  }
}
