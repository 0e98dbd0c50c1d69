/**
 * Requests under way against the drives, and the plain byte maps the files stand for. The file system only
 * appears as the map `at` from bytes of files to places on the drives.
 */
module Volume {
  import opened Memory
  import opened Wrappers
  import opened Layout
  import opened Sizes

  /** The reference semantics: the byte at each offset of each file, where that is determined. */
  type ByteMap = (nat, int) -> Option<byte>

  /** A request's queue pair (drive and core) and its place in the order of that queue pair's requests. */
  type Key = ((nat, nat), nat)

  datatype Stage = Waiting | Executed(got: seq<byte>)

  /**
   * A request issued at offset `o` of call `call` and not yet consumed: whole sectors of its file from `off`
   * on, at sector `dlba` of drive `did`; `len` bytes are copied from or to the caller. `wild` are the bytes of
   * its range that an earlier write was still to reach when it was issued.
   */
  datatype Pending = Pending(call: nat, o: nat, write: bool, file: nat, off: nat, nblk: nat, len: nat, buf: int,
                             data: seq<byte>, did: nat, dlba: nat, wild: iset<int>, stage: Stage)

  predicate Covers(r: Pending, i: nat, x: int) {
    r.file == i && r.off <= x < r.off + SECTOR * r.nblk
  }

  /** The request's range of its drive. */
  predicate On(r: Pending, p: (nat, nat)) {
    p.0 == r.did && SECTOR * r.dlba <= p.1 < SECTOR * r.dlba + SECTOR * r.nblk
  }

  predicate Waits(r: Pending, p: (nat, nat)) {
    r.write && r.stage.Waiting? && On(r, p)
  }

  /** Some write that is to change this byte of a drive has not run. */
  ghost predicate Dirty(reqs: map<Key, Pending>, p: (nat, nat)) {
    exists k {:trigger reqs[k]} :: k in reqs && Waits(reqs[k], p)
  }

  /** The bytes of a range of a file that some write is still to change. */
  ghost function WildIn(at: Places, reqs: map<Key, Pending>, file: nat, off: nat, size: nat): iset<int> {
    iset x: int | off <= x < off + size && (file, x) in at && Dirty(reqs, at[(file, x)])
  }

  /** The sectors of two requests overlap. */
  predicate Meets(r: Pending, s: Pending) {
    r.file == s.file && r.off < s.off + SECTOR * s.nblk && s.off < r.off + SECTOR * r.nblk
  }

  /**
   * The byte map after a write of `data` in whole sectors: what follows in the last sector is undetermined, and
   * so is what an earlier write may still change.
   */
  ghost function SpecWrite(spec: ByteMap, file: nat, off: int, data: seq<byte>, size: nat, wild: iset<int>): (spec': ByteMap)
    ensures forall i: nat, x: int {:trigger spec'(i, x)} :: spec'(i, x) ==
              if i == file && off <= x < off + size then
                if x < off + |data| && x !in wild then Some(data[x - off]) else None
              else spec(i, x)
  {
    (i: nat, x: int) =>
      if i == file && off <= x < off + size then
        if x < off + |data| && x !in wild then Some(data[x - off]) else None
      else spec(i, x)
  }

  /** The byte map after a file was removed. */
  function SpecErase(spec: ByteMap, file: nat): (spec': ByteMap)
    ensures forall i: nat, x: int {:trigger spec'(i, x)} :: spec'(i, x) == if i == file then None else spec(i, x)
  {
    (i: nat, x: int) => if i == file then None else spec(i, x)
  }

  predicate Agrees(want: Option<byte>, b: byte) {
    want == None || want == Some(b)
  }

  // ---- the invariant --------------------------------------------------------------------

  /** What a waiting write is going to put in a place is what the file there is to hold, where that is determined. */
  ghost predicate WriteOk(at: Places, spec: ByteMap, r: Pending) {
    && |r.data| == r.len
    && forall i: nat, x: int {:trigger spec(i, x)} :: spec(i, x).Some? && (i, x) in at && On(r, at[(i, x)]) ==>
         at[(i, x)].1 < SECTOR * r.dlba + r.len && spec(i, x).value == r.data[at[(i, x)].1 - SECTOR * r.dlba]
  }

  /** What a read has transferred are its file's bytes, where these were determined and reached. */
  ghost predicate ReadOk(spec: ByteMap, r: Pending) {
    r.stage.Executed? ==>
      && r.len <= |r.stage.got| == SECTOR * r.nblk
      && forall x {:trigger spec(r.file, x)} :: r.off <= x < r.off + r.len && x !in r.wild ==>
           Agrees(spec(r.file, x), r.stage.got[x - r.off])
  }

  ghost predicate ReqOk(at: Places, spec: ByteMap, r: Pending) {
    && 1 <= r.nblk <= 8 && r.len <= SECTOR * r.nblk
    && (r.write && r.stage.Waiting? ==> WriteOk(at, spec, r))
    && (!r.write ==> ReadOk(spec, r))
  }

  ghost predicate ReqsOk(at: Places, spec: ByteMap, reqs: map<Key, Pending>) {
    forall k {:trigger reqs[k]} {:trigger k in reqs} :: k in reqs ==> ReqOk(at, spec, reqs[k])
  }

  /** The request's run on its drive is the run of its file that it stands for. */
  ghost predicate Placed(at: Places, r: Pending) {
    Contiguous(at, r.file, r.off, SECTOR * r.nblk, r.did, SECTOR * r.dlba)
  }

  ghost predicate PlacesOk(at: Places, nd: nat) {
    && Injective(at)
    && forall p {:trigger at[p]} :: p in at ==> at[p].0 < nd
  }

  /** A determined byte has a place, and is there unless a write to that place is still waiting. */
  ghost predicate BytesOk(at: Places, disks: seq<Store>, reqs: map<Key, Pending>, spec: ByteMap)
    requires PlacesOk(at, |disks|)
  {
    forall i: nat, x: int {:trigger spec(i, x)} :: spec(i, x).Some? ==>
      && (i, x) in at
      && (Dirty(reqs, at[(i, x)]) || disks[at[(i, x)].0](at[(i, x)].1) == spec(i, x).value)
  }

  /** Only the bytes a request covers are in its range of the drive, as long as it is placed. */
  lemma InRange(at: Places, r: Pending, i: nat, x: int)
    requires Injective(at) && Placed(at, r) && (i, x) in at && On(r, at[(i, x)])
    ensures Covers(r, i, x) && at[(i, x)].1 == SECTOR * r.dlba + x - r.off
  {
    var y := r.off + at[(i, x)].1 - SECTOR * r.dlba;
    assert at[(r.file, y)] == at[(i, x)];
  }

  // ---- the drives' steps ----------------------------------------------------------------

  lemma WriteReaches(at: Places, disks: seq<Store>, reqs: map<Key, Pending>, spec: ByteMap, k: Key, sectors: seq<byte>)
    requires PlacesOk(at, |disks|) && BytesOk(at, disks, reqs, spec) && k in reqs && ReqOk(at, spec, reqs[k])
    requires reqs[k].write && reqs[k].stage.Waiting? && reqs[k].did < |disks|
    requires |sectors| == SECTOR * reqs[k].nblk && reqs[k].data <= sectors
    ensures var r := reqs[k];
            BytesOk(at, disks[r.did := Put(disks[r.did], SECTOR * r.dlba, sectors)], reqs[k := r.(stage := Executed([]))], spec)
  {
    var r := reqs[k];
    var disks' := disks[r.did := Put(disks[r.did], SECTOR * r.dlba, sectors)];
    var reqs' := reqs[k := r.(stage := Executed([]))];
    forall i: nat, x: int | spec(i, x).Some?
      ensures (i, x) in at && (Dirty(reqs', at[(i, x)]) || disks'[at[(i, x)].0](at[(i, x)].1) == spec(i, x).value)
    {
      var p := at[(i, x)];
      if On(r, p) {
        assert sectors[p.1 - SECTOR * r.dlba] == r.data[p.1 - SECTOR * r.dlba];
      } else if Dirty(reqs, p) {
        var l :| l in reqs && Waits(reqs[l], p);
        assert reqs'[l] == reqs[l];
      }
    }
  }

  /** A read sees the file's bytes where no write is waiting. */
  lemma ReadSees(at: Places, disks: seq<Store>, reqs: map<Key, Pending>, spec: ByteMap, k: Key)
    requires PlacesOk(at, |disks|) && BytesOk(at, disks, reqs, spec) && k in reqs && ReqOk(at, spec, reqs[k])
    requires !reqs[k].write && reqs[k].did < |disks| && Placed(at, reqs[k])
    requires var r := reqs[k];
             forall x {:trigger at[(r.file, x)]} :: r.off <= x < r.off + r.len && x !in r.wild && (r.file, x) in at ==>
               !Dirty(reqs, at[(r.file, x)])
    ensures var r := reqs[k];
            ReqOk(at, spec, r.(stage := Executed(Get(disks[r.did], SECTOR * r.dlba, SECTOR * r.nblk))))
  {
    var r := reqs[k];
    var got := Get(disks[r.did], SECTOR * r.dlba, SECTOR * r.nblk);
    forall x | r.off <= x < r.off + r.len && x !in r.wild ensures Agrees(spec(r.file, x), got[x - r.off]) {
      if spec(r.file, x).Some? {
        assert at[(r.file, x)] == (r.did, SECTOR * r.dlba + x - r.off);
      }
    }
  }

  /** A change of stage of a read, or the removal of what has run, leaves the bytes where they are. */
  lemma StillDirty(reqs: map<Key, Pending>, reqs': map<Key, Pending>, p: (nat, nat))
    requires forall k {:trigger reqs[k]} :: k in reqs && reqs[k].write && reqs[k].stage.Waiting? ==> k in reqs' && reqs'[k] == reqs[k]
    ensures Dirty(reqs, p) ==> Dirty(reqs', p)
  {
    if Dirty(reqs, p) {
      var l :| l in reqs && Waits(reqs[l], p);
      assert reqs'[l] == reqs[l];
    }
  }

  lemma BytesKept(at: Places, disks: seq<Store>, reqs: map<Key, Pending>, reqs': map<Key, Pending>, spec: ByteMap)
    requires PlacesOk(at, |disks|) && BytesOk(at, disks, reqs, spec)
    requires forall k {:trigger reqs[k]} :: k in reqs && reqs[k].write && reqs[k].stage.Waiting? ==> k in reqs' && reqs'[k] == reqs[k]
    ensures BytesOk(at, disks, reqs', spec)
  {
    forall i: nat, x: int | spec(i, x).Some?
      ensures (i, x) in at && (Dirty(reqs', at[(i, x)]) || disks[at[(i, x)].0](at[(i, x)].1) == spec(i, x).value)
    {
      StillDirty(reqs, reqs', at[(i, x)]);
    }
  }

  // ---- the host's steps -----------------------------------------------------------------

  /** A new read. */
  lemma ReadIssueOk(at: Places, disks: seq<Store>, reqs: map<Key, Pending>, spec: ByteMap, k: Key, r: Pending)
    requires PlacesOk(at, |disks|) && BytesOk(at, disks, reqs, spec) && ReqsOk(at, spec, reqs)
    requires k !in reqs && !r.write && r.stage.Waiting? && 1 <= r.nblk <= 8 && r.len <= SECTOR * r.nblk
    ensures BytesOk(at, disks, reqs[k := r], spec) && ReqsOk(at, spec, reqs[k := r])
  {
    BytesKept(at, disks, reqs, reqs[k := r], spec);
    assert ReqOk(at, spec, r);
  }

  /** A new write that meets no read under way: it moves the byte map at once, except where an earlier write is waiting. */
  lemma WriteIssueOk(at: Places, disks: seq<Store>, reqs: map<Key, Pending>, spec: ByteMap, k: Key, r: Pending)
    requires PlacesOk(at, |disks|) && BytesOk(at, disks, reqs, spec) && ReqsOk(at, spec, reqs)
    requires k !in reqs && r.write && r.stage.Waiting? && 1 <= r.nblk <= 8 && |r.data| == r.len <= SECTOR * r.nblk
    requires Placed(at, r) && r.wild == WildIn(at, reqs, r.file, r.off, SECTOR * r.nblk)
    requires forall l {:trigger reqs[l]} :: l in reqs && !reqs[l].write ==> !Meets(r, reqs[l])
    ensures var spec' := SpecWrite(spec, r.file, r.off, r.data, SECTOR * r.nblk, r.wild);
            BytesOk(at, disks, reqs[k := r], spec') && ReqsOk(at, spec', reqs[k := r])
  {
    var spec' := SpecWrite(spec, r.file, r.off, r.data, SECTOR * r.nblk, r.wild);
    IssueBytes(at, disks, reqs, spec, k, r);
    NewWriteOk(at, spec, r);
    forall l | l in reqs ensures ReqOk(at, spec', reqs[l]) {
      assert ReqOk(at, spec, reqs[l]);
      if reqs[l].write && reqs[l].stage.Waiting? {
        EarlierWriteOk(at, reqs, spec, l, r);
      }
    }
  }

  lemma IssueBytes(at: Places, disks: seq<Store>, reqs: map<Key, Pending>, spec: ByteMap, k: Key, r: Pending)
    requires PlacesOk(at, |disks|) && BytesOk(at, disks, reqs, spec)
    requires k !in reqs && r.write && r.stage.Waiting? && |r.data| == r.len <= SECTOR * r.nblk && Placed(at, r)
    ensures BytesOk(at, disks, reqs[k := r], SpecWrite(spec, r.file, r.off, r.data, SECTOR * r.nblk, r.wild))
  {
    var spec' := SpecWrite(spec, r.file, r.off, r.data, SECTOR * r.nblk, r.wild);
    var reqs' := reqs[k := r];
    forall i: nat, x: int | spec'(i, x).Some?
      ensures (i, x) in at && (Dirty(reqs', at[(i, x)]) || disks[at[(i, x)].0](at[(i, x)].1) == spec'(i, x).value)
    {
      if Covers(r, i, x) {
        assert (i, x) in at && at[(i, x)] == (r.did, SECTOR * r.dlba + x - r.off);
        assert reqs'[k] == r;
      } else {
        assert spec'(i, x) == spec(i, x);
        StillDirty(reqs, reqs', at[(i, x)]);
      }
    }
  }

  lemma NewWriteOk(at: Places, spec: ByteMap, r: Pending)
    requires Injective(at) && Placed(at, r) && |r.data| == r.len <= SECTOR * r.nblk
    ensures WriteOk(at, SpecWrite(spec, r.file, r.off, r.data, SECTOR * r.nblk, r.wild), r)
  {
    var spec' := SpecWrite(spec, r.file, r.off, r.data, SECTOR * r.nblk, r.wild);
    forall i: nat, x: int | spec'(i, x).Some? && (i, x) in at && On(r, at[(i, x)])
      ensures at[(i, x)].1 < SECTOR * r.dlba + r.len && spec'(i, x).value == r.data[at[(i, x)].1 - SECTOR * r.dlba]
    {
      InRange(at, r, i, x);
    }
  }

  lemma IsWild(at: Places, reqs: map<Key, Pending>, l: Key, r: Pending, x: int)
    requires l in reqs && (r.file, x) in at && Waits(reqs[l], at[(r.file, x)]) && Covers(r, r.file, x)
    ensures x in WildIn(at, reqs, r.file, r.off, SECTOR * r.nblk)
  {
  }

  lemma EarlierWriteOk(at: Places, reqs: map<Key, Pending>, spec: ByteMap, l: Key, r: Pending)
    requires l in reqs && reqs[l].write && reqs[l].stage.Waiting? && WriteOk(at, spec, reqs[l])
    requires r.wild == WildIn(at, reqs, r.file, r.off, SECTOR * r.nblk)
    ensures WriteOk(at, SpecWrite(spec, r.file, r.off, r.data, SECTOR * r.nblk, r.wild), reqs[l])
  {
    var spec' := SpecWrite(spec, r.file, r.off, r.data, SECTOR * r.nblk, r.wild);
    var s := reqs[l];
    forall i: nat, x: int | spec'(i, x).Some? && (i, x) in at && On(s, at[(i, x)])
      ensures at[(i, x)].1 < SECTOR * s.dlba + s.len && spec'(i, x).value == s.data[at[(i, x)].1 - SECTOR * s.dlba]
    {
      if Covers(r, i, x) {
        IsWild(at, reqs, l, r, x);
      }
      assert spec'(i, x) == spec(i, x);
    }
  }

  /** More places, and the same ones for what had a place. */
  lemma ExtendOk(at: Places, at': Places, disks: seq<Store>, reqs: map<Key, Pending>, spec: ByteMap)
    requires PlacesOk(at, |disks|) && PlacesOk(at', |disks|) && Extended(at, at')
    requires BytesOk(at, disks, reqs, spec) && ReqsOk(at, spec, reqs)
    ensures BytesOk(at', disks, reqs, spec) && ReqsOk(at', spec, reqs)
  {
    forall k | k in reqs ensures ReqOk(at', spec, reqs[k]) {
      var r := reqs[k];
      if r.write && r.stage.Waiting? {
        forall i: nat, x: int | spec(i, x).Some? && (i, x) in at' && On(r, at'[(i, x)])
          ensures at'[(i, x)].1 < SECTOR * r.dlba + r.len && spec(i, x).value == r.data[at'[(i, x)].1 - SECTOR * r.dlba]
        {
          assert at'[(i, x)] == at[(i, x)];
        }
      }
    }
  }

  /** A file without reads under way loses its places and its bytes; writes to it may still be waiting. */
  lemma EraseOk(at: Places, at': Places, disks: seq<Store>, reqs: map<Key, Pending>, spec: ByteMap, file: nat)
    requires PlacesOk(at, |disks|) && PlacesOk(at', |disks|)
    requires forall p {:trigger p in at'} :: p in at' <==> p in at && p.0 != file
    requires forall p {:trigger at'[p]} :: p in at' ==> at'[p] == at[p]
    requires BytesOk(at, disks, reqs, spec) && ReqsOk(at, spec, reqs)
    requires forall k {:trigger reqs[k]} :: k in reqs && !reqs[k].write ==> reqs[k].file != file
    ensures BytesOk(at', disks, reqs, SpecErase(spec, file)) && ReqsOk(at', SpecErase(spec, file), reqs)
  {
    var spec' := SpecErase(spec, file);
    forall k | k in reqs ensures ReqOk(at', spec', reqs[k]) {
      var r := reqs[k];
      if r.write && r.stage.Waiting? {
        forall i: nat, x: int | spec'(i, x).Some? && (i, x) in at' && On(r, at'[(i, x)])
          ensures at'[(i, x)].1 < SECTOR * r.dlba + r.len && spec'(i, x).value == r.data[at'[(i, x)].1 - SECTOR * r.dlba]
        {
          assert spec'(i, x) == spec(i, x) && at'[(i, x)] == at[(i, x)];
        }
      }
    }
    forall i: nat, x: int | spec'(i, x).Some?
      ensures (i, x) in at' && (Dirty(reqs, at'[(i, x)]) || disks[at'[(i, x)].0](at'[(i, x)].1) == spec'(i, x).value)
    {
      assert spec'(i, x) == spec(i, x);
      assert at'[(i, x)] == at[(i, x)];
    }
  }
}
