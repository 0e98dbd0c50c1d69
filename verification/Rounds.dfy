/** What one request leaves when nothing else happens meanwhile, and what a whole write leaves request by request. */
module Rounds {
  import opened Memory
  import opened Sizes
  import V = Volume
  import C = Calls
  import S = Stack
  import R = ReadAfterWrite
  import Y = Layout
  import L = Locate
  import H = HookIo

  /** The bytes `data` and zeros behind them. */
  predicate Padded(data: seq<byte>, sectors: seq<byte>) {
    data <= sectors && forall j {:trigger sectors[j]} :: |data| <= j < |sectors| ==> sectors[j] == 0
  }

  // ---- what a request leaves ------------------------------------------------------------

  /** The byte of the one file at offset x is b on its drive. */
  ghost predicate Stands(s: S.State, x: int, b: byte) {
    |s.disks| > 0 && R.OnDrive(S.At(s), s.disks, 0, x, b)
  }

  /** The byte at offset x is on its drive what the buffer of call c has for it. */
  ghost predicate Same(at: Y.Places, disks: seq<Store>, mem: Store, c: C.Call, x: int) {
    R.OnDrive(at, disks, 0, x, mem(c.buf + x - c.pos))
  }

  ghost predicate Has(s: S.State, c: C.Call, x: int) {
    Stands(s, x, s.mem(c.buf + x - c.pos))
  }

  /** Call id has gone on by one request, and that one is over. */
  ghost predicate Moved(s: S.State, id: nat, s': S.State) {
    && id in s.calls && s.calls[id].issued < s.calls[id].len && id in s'.calls
    && var c, d := s.calls[id], s'.calls[id];
    && d == c.(issued := d.issued, wild := d.wild) && d.issued == c.issued + C.SizeOf(c)
    && s'.calls == s.calls[id := d] && s'.reqs == s.reqs
    && (s.reqs == map[] ==> d.wild == c.wild)
  }

  /** The next request of call c, a write, has put its bytes on the drive, and from a clean bounce buffer zeros behind them. */
  ghost predicate WriteLeft(s: S.State, c: C.Call, s': S.State, clean: bool)
    requires c.issued < c.len
  {
    var off, ch := c.pos + c.issued, C.Ch(c);
    && s'.mem == s.mem
    && (forall x, b {:trigger Stands(s', x, b)} :: Stands(s, x, b) && !(off <= x < off + SECTOR * ch.nblk) ==> Stands(s', x, b))
    && (forall x {:trigger Has(s', c, x)} :: off <= x < off + ch.len ==> Has(s', c, x))
    && (clean ==> forall x {:trigger Stands(s', x, 0)} :: off + ch.len <= x < off + SECTOR * ch.nblk ==> Stands(s', x, 0))
  }

  lemma AsClean(s: S.State, c: C.Call, s': S.State, a: bool, b: bool)
    requires c.issued < c.len && WriteLeft(s, c, s', a) && (b ==> a)
    ensures WriteLeft(s, c, s', b)
  {
  }

  /** The next request of call c, a read, has fetched what is on the drive. */
  ghost predicate ReadLeft(s: S.State, c: C.Call, s': S.State)
    requires c.issued < c.len
  {
    var off, ch := c.pos + c.issued, C.Ch(c);
    && (forall x, b {:trigger Stands(s', x, b)} :: Stands(s, x, b) ==> Stands(s', x, b))
    && (forall x {:trigger Has(s', c, x)} :: off <= x < off + ch.len ==> Has(s', c, x))
  }

  lemma StandsStill(at: Y.Places, disks: seq<Store>, r: V.Pending, sectors: seq<byte>, i: nat, x: int, b: byte)
    requires Y.Injective(at) && V.Placed(at, r) && r.did < |disks| && |sectors| == SECTOR * r.nblk
    requires R.OnDrive(at, disks, i, x, b) && !V.Covers(r, i, x)
    ensures R.OnDrive(at, disks[r.did := Put(disks[r.did], SECTOR * r.dlba, sectors)], i, x, b)
  {
    if V.On(r, at[(i, x)]) {
      V.InRange(at, r, i, x);
    }
  }

  lemma StandsNew(at: Y.Places, disks: seq<Store>, r: V.Pending, sectors: seq<byte>, x: int)
    requires V.Placed(at, r) && r.did < |disks| && |sectors| == SECTOR * r.nblk && V.Covers(r, r.file, x)
    ensures R.OnDrive(at, disks[r.did := Put(disks[r.did], SECTOR * r.dlba, sectors)], r.file, x, sectors[x - r.off])
  {
    assert at[(r.file, x)] == (r.did, SECTOR * r.dlba + x - r.off);
  }

  lemma StandsRead(at: Y.Places, disks: seq<Store>, r: V.Pending, x: int)
    requires V.Placed(at, r) && r.did < |disks| && V.Covers(r, r.file, x)
    ensures R.OnDrive(at, disks, r.file, x, Get(disks[r.did], SECTOR * r.dlba, SECTOR * r.nblk)[x - r.off])
  {
    assert at[(r.file, x)] == (r.did, SECTOR * r.dlba + x - r.off);
  }

  /** From s to s1 a request goes out under key k; what a drive does with it then ends in s2. */
  ghost predicate Round(s: S.State, id: nat, k: V.Key, s1: S.State, sectors: seq<byte>, s2: S.State) {
    && |s1.disks| == |s.disks| > 0 && id in s.calls && k in s1.reqs && S.Issues(s, id, k, s1) && s.calls[id].file == 0
    && Y.Extended(S.At(s), S.At(s1)) && Y.Injective(S.At(s1)) && V.Placed(S.At(s1), s1.reqs[k]) && s1.reqs[k].did < |s.disks|
    && S.CanExecute(s1, k, sectors)
    && S.Step(S.Executes(s1, k, sectors), S.Consume(k), s2)
  }

  /** The request is for the call's next chunk. */
  predicate IsChunk(r: V.Pending, c: C.Call, mem: Store) {
    && c.issued < c.len && r.write == c.write && r.file == c.file && r.off == c.pos + c.issued && r.buf == c.buf + c.issued
    && r.nblk == C.Ch(c).nblk && r.len == C.Ch(c).len && (r.write ==> r.data == Get(mem, r.buf, r.len))
  }

  /** What a round comes to, field by field. */
  lemma RoundFields(s: S.State, id: nat, k: V.Key, s1: S.State, sectors: seq<byte>, s2: S.State)
    requires Round(s, id, k, s1, sectors, s2)
    ensures var c, r := s.calls[id], s1.reqs[k];
            && IsChunk(r, c, s.mem) && |sectors| == SECTOR * r.nblk
            && s2.calls == s.calls[id := C.Advance(c, r.wild)] && s2.reqs == s.reqs && s2.fs == s1.fs
            && if c.write then s2.mem == s.mem && s2.disks == s.disks[r.did := Put(s.disks[r.did], SECTOR * r.dlba, sectors)]
               else s2.disks == s.disks && r.len <= |sectors| && s2.mem == Put(s.mem, r.buf, sectors[..r.len])
                    && sectors == Get(s.disks[r.did], SECTOR * r.dlba, SECTOR * r.nblk)
  {
    hide L.Found, L.Allocates, V.WildIn, Y.Extended, Y.Injective, V.Placed, C.NextReq, C.Advance, S.At, V.SpecWrite, C.Ch;
    assert s1.reqs == s.reqs[k := s1.reqs[k]];
    NextIs(s, id, k, s1);
    assert s2.reqs == s.reqs;
  }

  lemma NextIs(s: S.State, id: nat, k: V.Key, s1: S.State)
    requires S.Issues(s, id, k, s1)
    ensures IsChunk(s1.reqs[k], s.calls[id], s.mem) && s1.reqs[k].stage.Waiting?
  {
  }

  lemma RoundMoves(s: S.State, id: nat, k: V.Key, s1: S.State, sectors: seq<byte>, s2: S.State)
    requires Round(s, id, k, s1, sectors, s2)
    ensures Moved(s, id, s2)
  {
    hide Y.Extended, Y.Injective, V.Placed, S.Step, S.CanExecute, S.Issues, S.At, C.Ch;
    RoundFields(s, id, k, s1, sectors, s2);
    NotWild(s, id, k, s1);
    var c, r := s.calls[id], s1.reqs[k];
    H.SizesGood(c.pos, c.len);
  }

  lemma NotWild(s: S.State, id: nat, k: V.Key, s1: S.State)
    requires S.Issues(s, id, k, s1)
    ensures s.reqs == map[] ==> s1.reqs[k].wild == iset{}
  {
  }

  lemma RoundWrites(s: S.State, id: nat, k: V.Key, s1: S.State, sectors: seq<byte>, s2: S.State, clean: bool)
    requires Round(s, id, k, s1, sectors, s2) && s.calls[id].write
    requires s1.reqs[k].data <= sectors && (clean ==> Padded(s1.reqs[k].data, sectors))
    ensures WriteLeft(s, s.calls[id], s2, clean)
  {
    hide S.Issues, S.CanExecute, S.Step, S.At, C.Ch, C.Advance, Y.Injective, Y.Extended, Y.PlacesOf, V.Placed;
    RoundFields(s, id, k, s1, sectors, s2);
    SamePlaces(s1, s2);
    var c := s.calls[id];
    WriteLands(S.At(s), S.At(s1), s.disks, c, s1.reqs[k], s.mem, sectors, clean);
    forall x | c.pos + c.issued <= x < c.pos + c.issued + C.Ch(c).len ensures Has(s2, c, x) {
      assert Same(S.At(s1), s2.disks, s.mem, c, x);
    }
  }

  lemma WriteLands(at: Y.Places, at': Y.Places, disks: seq<Store>, c: C.Call, r: V.Pending, mem: Store, sectors: seq<byte>, clean: bool)
    requires Y.Extended(at, at') && Y.Injective(at') && V.Placed(at', r) && r.did < |disks| && |sectors| == SECTOR * r.nblk
    requires IsChunk(r, c, mem) && c.write && c.file == 0 && r.data <= sectors && (clean ==> Padded(r.data, sectors))
    ensures var disks', off := disks[r.did := Put(disks[r.did], SECTOR * r.dlba, sectors)], c.pos + c.issued;
            && (forall x, b {:trigger R.OnDrive(at', disks', 0, x, b)} ::
                  R.OnDrive(at, disks, 0, x, b) && !(off <= x < off + SECTOR * C.Ch(c).nblk) ==> R.OnDrive(at', disks', 0, x, b))
            && (forall x {:trigger Same(at', disks', mem, c, x)} :: off <= x < off + C.Ch(c).len ==> Same(at', disks', mem, c, x))
            && (clean ==> forall x {:trigger R.OnDrive(at', disks', 0, x, 0)} ::
                  off + C.Ch(c).len <= x < off + SECTOR * C.Ch(c).nblk ==> R.OnDrive(at', disks', 0, x, 0))
  {
    hide C.Ch, V.Placed, Y.Injective, R.OnDrive;
    var disks' := disks[r.did := Put(disks[r.did], SECTOR * r.dlba, sectors)];
    forall x, b | R.OnDrive(at, disks, 0, x, b) && !(r.off <= x < r.off + SECTOR * r.nblk) ensures R.OnDrive(at', disks', 0, x, b) {
      StandsAlso(at, at', disks, x, b);
      StandsStill(at', disks, r, sectors, 0, x, b);
    }
    forall x | r.off <= x < r.off + r.len ensures Same(at', disks', mem, c, x) {
      StandsNew(at', disks, r, sectors, x);
      assert sectors[x - r.off] == r.data[x - r.off];
    }
    forall x {:trigger R.OnDrive(at', disks', 0, x, 0)} | clean && r.off + r.len <= x < r.off + SECTOR * r.nblk ensures R.OnDrive(at', disks', 0, x, 0) {
      StandsNew(at', disks, r, sectors, x);
    }
  }

  lemma StandsAlso(at: Y.Places, at': Y.Places, disks: seq<Store>, x: int, b: byte)
    requires Y.Extended(at, at') && R.OnDrive(at, disks, 0, x, b)
    ensures R.OnDrive(at', disks, 0, x, b)
  {
  }

  lemma CarriesData(s: S.State, k: V.Key, sectors: seq<byte>)
    requires S.CanExecute(s, k, sectors)
    ensures s.reqs[k].write ==> s.reqs[k].data <= sectors
  {
  }

  lemma SamePlaces(s: S.State, s': S.State)
    requires s'.fs == s.fs && |s'.disks| == |s.disks| > 0
    ensures S.At(s') == S.At(s)
  {
  }

  lemma RoundReads(s: S.State, id: nat, k: V.Key, s1: S.State, sectors: seq<byte>, s2: S.State)
    requires Round(s, id, k, s1, sectors, s2) && !s.calls[id].write
    ensures ReadLeft(s, s.calls[id], s2)
  {
    hide S.Issues, S.CanExecute, S.Step, S.At, C.Ch, C.Advance, Y.Injective, Y.Extended, Y.PlacesOf, V.Placed;
    RoundFields(s, id, k, s1, sectors, s2);
    var c, r := s.calls[id], s1.reqs[k];
    SamePlaces(s1, s2);
    forall x, b | Stands(s, x, b) ensures Stands(s2, x, b) {
      StandsAlso(S.At(s), S.At(s1), s.disks, x, b);
    }
    forall x | r.off <= x < r.off + r.len ensures Has(s2, c, x) {
      StandsRead(S.At(s1), s.disks, r, x);
    }
  }

  lemma IssuePlaces(s: S.State, id: nat, k: V.Key, s1: S.State)
    requires S.Inv(s) && S.Issues(s, id, k, s1)
    ensures |s1.disks| == |s.disks| > 0 && id in s.calls && k in s1.reqs && s1.reqs[k].did < |s.disks|
    ensures Y.Extended(S.At(s), S.At(s1)) && Y.Injective(S.At(s1)) && V.Placed(S.At(s1), s1.reqs[k])
  {
    hide S.Inv, S.Issues, S.At, Y.Extended, Y.Injective, V.Placed;
    S.IssueFields(s, id, k, s1);
    S.Issued(s, id, k, s1);
  }

  // ---- a write, request by request ------------------------------------------------------

  /** What a write has issued is on the drive. */
  ghost predicate Filled(s: S.State, c: C.Call) {
    forall x {:trigger Has(s, c, x)} :: c.pos <= x < c.pos + C.Done(c) ==> Has(s, c, x)
  }

  /** From s to s' write call id has gone on, each request being over before the next, and nothing else has happened. */
  ghost predicate Wrote(s: S.State, id: nat, s': S.State, clean: bool) {
    && id in s.calls && id in s'.calls
    && var c, d := s.calls[id], s'.calls[id];
    && d == c.(issued := d.issued, wild := d.wild) && c.issued <= d.issued
    && s'.calls == s.calls[id := d] && s'.reqs == s.reqs && s'.mem == s.mem && (s.reqs == map[] ==> d.wild == c.wild)
    && Filled(s', d)
    && (forall x, b {:trigger Stands(s', x, b)} :: Stands(s, x, b) && !(c.pos + c.issued <= x < c.pos + C.Reach(d)) ==> Stands(s', x, b))
    && (clean && c.issued < c.len <= d.issued && c.len % SECTOR != 0 ==> Stands(s', c.pos + c.len, 0))
  }

  lemma WroteOne(s: S.State, id: nat, s': S.State, clean: bool)
    requires Moved(s, id, s') && WriteLeft(s, s.calls[id], s', clean) && s.calls[id].write && C.CallOk(s.calls[id]) && Filled(s, s.calls[id])
    ensures Wrote(s, id, s', clean)
  {
    hide Stands, C.CallOk, C.SizeOf, C.Ch, H.Fits, H.OnGrid, H.GoodSize;
    var c, d := s.calls[id], s'.calls[id];
    NextSpan(c, d);
    forall x | c.pos <= x < c.pos + C.Done(d) ensures Has(s', d, x) {
      if x < c.pos + c.issued {
        assert Has(s, c, x);
      } else {
        assert Has(s', c, x);
      }
    }
  }

  /** The sectors of a write's next request. */
  lemma NextSpan(c: C.Call, d: C.Call)
    requires C.CallOk(c) && c.issued < c.len && c.write && d == c.(issued := d.issued, wild := d.wild) && d.issued == c.issued + C.SizeOf(c)
    ensures c.issued < d.issued && C.Done(c) == c.issued && C.Done(d) == c.issued + C.Ch(c).len
    ensures c.issued + SECTOR * C.Ch(c).nblk <= C.Reach(d)
    ensures c.len <= d.issued && c.len % SECTOR != 0 ==> c.len == c.issued + C.Ch(c).len < c.issued + SECTOR * C.Ch(c).nblk
  {
    C.NextFits(c, iset{});
    H.SizesGood(c.pos, c.len);
  }

  lemma WroteMore(s: S.State, id: nat, s1: S.State, s2: S.State, clean: bool)
    requires Wrote(s, id, s1, clean) && Wrote(s1, id, s2, clean) && s1.calls[id].issued < s1.calls[id].len
    ensures Wrote(s, id, s2, clean)
  {
    hide Stands, Filled;
    var c, d, e := s.calls[id], s1.calls[id], s2.calls[id];
    assert C.Reach(d) <= C.Reach(e);
  }

  lemma WroteFields(s: S.State, id: nat, s': S.State, clean: bool)
    requires Wrote(s, id, s', clean)
    ensures id in s.calls && id in s'.calls
    ensures var c, d := s.calls[id], s'.calls[id];
            && d == c.(issued := d.issued, wild := d.wild) && c.issued <= d.issued
            && s'.calls == s.calls[id := d] && s'.reqs == s.reqs && s'.mem == s.mem && (s.reqs == map[] ==> d.wild == c.wild)
            && Filled(s', d)
  {
  }

  lemma MovedFields(s: S.State, id: nat, s': S.State)
    requires Moved(s, id, s')
    ensures id in s.calls && id in s'.calls && s.calls[id].issued < s'.calls[id].issued == s.calls[id].issued + C.SizeOf(s.calls[id])
  {
    H.SizesGood(s.calls[id].pos, s.calls[id].len);
  }

  lemma WroteNone(s: S.State, id: nat, clean: bool)
    requires id in s.calls && Filled(s, s.calls[id]) && s.calls[id].issued < s.calls[id].len
    ensures Wrote(s, id, s, clean)
  {
  }
}
