/**
 * The whole stack as one machine: clients' calls, the allocator, and requests that the drives execute in
 * any order, against a plain byte map for each file.
 */
module Stack {
  import opened Memory
  import opened Wrappers
  import opened Sizes
  import opened Myfs
  import opened Layout
  import opened Volume
  import opened Calls
  import opened Locate
  import H = HookIo

  datatype State = State(fs: FS, disks: seq<Store>, mem: Store, calls: map<nat, Call>, reqs: map<Key, Pending>, spec: ByteMap)

  datatype Event =
    | Begin(id: nat, write: bool, file: nat, pos: nat, len: nat, buf: int)
    | Issue(id: nat, k: Key)
    | Execute(k: Key, sectors: seq<byte>)
    | Consume(k: Key)
    | End(id: nat)
    | Open(name: string)
    | Unlink(file: nat)
    | Client

  // ---- the invariant --------------------------------------------------------------------

  ghost predicate Core(at: Places, disks: seq<Store>, reqs: map<Key, Pending>, spec: ByteMap) {
    && PlacesOk(at, |disks|) && BytesOk(at, disks, reqs, spec) && ReqsOk(at, spec, reqs)
    && forall k {:trigger reqs[k]} :: k in reqs ==> reqs[k].did < |disks|
  }

  ghost predicate Hosts(at: Places, calls: map<nat, Call>, reqs: map<Key, Pending>, mem: Store, spec: ByteMap) {
    CallsOk(calls) && OwnersOk(at, calls, reqs) && Clear(at, calls, reqs) && Settled(calls, reqs, mem, spec)
  }

  /** The files of calls in progress have names, and a read stays inside its file. */
  ghost predicate FilesOk(fs: FS, calls: map<nat, Call>) {
    forall a {:trigger calls[a]} :: a in calls ==> FileFits(fs, calls[a])
  }

  predicate FileFits(fs: FS, c: Call) {
    && c.file < |fs.files| && fs.files[c.file].name != ""
    && (!c.write ==> c.pos + c.len <= fs.files[c.file].nBlock * BLOCK_SIZE)
  }

  /** Where the bytes of files are. */
  ghost function At(s: State): Places
    requires |s.disks| > 0
  {
    PlacesOf(s.fs, |s.disks|)
  }

  ghost predicate Inv(s: State) {
    && |s.disks| > 0 && Conserved(s.fs)
    && Core(At(s), s.disks, s.reqs, s.spec)
    && Hosts(At(s), s.calls, s.reqs, s.mem, s.spec)
    && FilesOk(s.fs, s.calls)
  }

  ghost predicate Init(s: State) {
    && IsInit(s.fs) && |s.disks| > 0
    && s.calls == map[] && s.reqs == map[]
    && forall i: nat, x: int {:trigger s.spec(i, x)} :: s.spec(i, x) == None
  }

  // ---- the steps ------------------------------------------------------------------------

  /** The call as read_impl or write_impl sets it up: a read is clipped at the end of the file. */
  function NewCall(fs: FS, write: bool, file: nat, pos: nat, len: nat, buf: int): Call
    requires file < |fs.files|
  {
    Call(write, file, pos, if write then len else H.Clip(pos, len, fs.files[file].nBlock * BLOCK_SIZE), buf, 0, iset{})
  }

  /** The next request of a call goes out under key k, to wherever its offset is translated. */
  ghost predicate Issues(s: State, id: nat, k: Key, s': State) {
    && |s.disks| > 0 && id in s.calls && k !in s.reqs && k in s'.reqs
    && var c, r := s.calls[id], s'.reqs[k];
    && c.issued < c.len
    && (c.write ==> Allocates(s.fs, c.file, c.pos + c.issued))
    && Found(s.fs, |s.disks|, c.file, c.pos + c.issued, c.write, s'.fs, r.did, r.dlba)
    && r.wild == WildIn(PlacesOf(s'.fs, |s.disks|), s.reqs, c.file, c.pos + c.issued, SECTOR * Ch(c).nblk)
    && r == NextReq(id, c, s.mem, r.did, r.dlba, r.wild)
    && s' == s.(fs := s'.fs, calls := s.calls[id := Advance(c, r.wild)], reqs := s.reqs[k := r],
                spec := if c.write then SpecWrite(s.spec, r.file, r.off, r.data, SECTOR * r.nblk, r.wild) else s.spec)
  }

  /** A drive carries out a request: it reads its sectors, or writes sectors that begin with the bytes given. */
  predicate CanExecute(s: State, k: Key, sectors: seq<byte>) {
    && k in s.reqs && s.reqs[k].stage.Waiting? && s.reqs[k].did < |s.disks|
    && var r := s.reqs[k];
    && |sectors| == SECTOR * r.nblk
    && if r.write then r.data <= sectors else sectors == Get(s.disks[r.did], SECTOR * r.dlba, SECTOR * r.nblk)
  }

  function Executes(s: State, k: Key, sectors: seq<byte>): State
    requires CanExecute(s, k, sectors)
  {
    var r := s.reqs[k];
    if r.write then
      s.(disks := s.disks[r.did := Put(s.disks[r.did], SECTOR * r.dlba, sectors)], reqs := s.reqs[k := r.(stage := Volume.Executed([]))])
    else
      s.(reqs := s.reqs[k := r.(stage := Volume.Executed(sectors))])
  }

  /** The host finds the completion of a request and copies a read's bytes to the caller. */
  function Consumes(s: State, k: Key): State
    requires k in s.reqs && s.reqs[k].stage.Executed? && (!s.reqs[k].write ==> s.reqs[k].len <= |s.reqs[k].stage.got|)
  {
    var r := s.reqs[k];
    s.(reqs := s.reqs - {k}, mem := if r.write then s.mem else Put(s.mem, r.buf, r.stage.got[..r.len]))
  }

  /** A request of a call that is not the last one of its range. */
  predicate NotLast(c: Call, r: Pending) {
    r.o + SizeOf(c) < c.len
  }

  /** A call returns when it has issued everything; a read also awaits all its requests, a write all but the last. */
  ghost predicate MayEnd(s: State, id: nat) {
    && id in s.calls && s.calls[id].issued >= s.calls[id].len
    && forall k {:trigger s.reqs[k]} :: k in s.reqs && s.reqs[k].call == id ==> s.calls[id].write && !NotLast(s.calls[id], s.reqs[k])
  }

  /** What must hold for the event, and the state it leads to. */
  ghost predicate Step(s: State, e: Event, s': State) {
    match e
    case Begin(id, write, file, pos, len, buf) =>
      && file < |s.fs.files| && s.fs.files[file].name != ""
      && MayBegin(s.calls, s.reqs, id, NewCall(s.fs, write, file, pos, len, buf))
      && s' == s.(calls := s.calls[id := NewCall(s.fs, write, file, pos, len, buf)])
    case Issue(id, k) => Issues(s, id, k, s')
    case Execute(k, sectors) => CanExecute(s, k, sectors) && s' == Executes(s, k, sectors)
    case Consume(k) =>
      && k in s.reqs && s.reqs[k].stage.Executed? && (!s.reqs[k].write ==> s.reqs[k].len <= |s.reqs[k].stage.got|)
      && s' == Consumes(s, k)
    case End(id) =>
      && MayEnd(s, id)
      && s' == s.(calls := s.calls - {id})
    case Open(name) =>
      && name != "" && OpenSlot(s.fs.files, name) < |s.fs.files|
      && s' == s.(fs := s.fs.(files := OpenFiles(s.fs.files, name)))
    case Unlink(file) =>
      && s.fs.rp < |s.fs.free| && s.fs.wp < |s.fs.free| && file < |s.fs.files|
      && (forall a {:trigger s.calls[a]} :: a in s.calls ==> s.calls[a].file != file)
      && Unlinks(s.fs, file, s'.fs)
      && s' == s.(fs := s'.fs, spec := SpecErase(s.spec, file))
    case Client =>
      && (forall a, x {:trigger s.calls[a], s'.mem(x)} :: a in s.calls && s.calls[a].buf <= x < s.calls[a].buf + s.calls[a].len ==>
            s'.mem(x) == s.mem(x))
      && s' == s.(mem := s'.mem)
  }

  // ---- every step keeps the invariant ---------------------------------------------------

  lemma InitInv(s: State)
    requires Init(s)
    ensures Inv(s)
  {
    InitConserved(s.fs);
    PlacesInjective(s.fs, |s.disks|);
  }

  lemma GrownFiles(fs: FS, fs': FS, calls: map<nat, Call>, id: nat, wild: iset<int>)
    requires FilesOk(fs, calls) && SameFiles(fs, fs') && id in calls && calls[id].issued < calls[id].len
    ensures FilesOk(fs', calls[id := Advance(calls[id], wild)])
  {
    var calls' := calls[id := Advance(calls[id], wild)];
    forall a | a in calls' ensures FileFits(fs', calls'[a]) {
      assert FileFits(fs, calls[a]);
      var i := calls[a].file;
      assert fs'.files[i].name == fs.files[i].name;
      assert fs.files[i].nBlock * BLOCK_SIZE <= fs'.files[i].nBlock * BLOCK_SIZE;
    }
  }

  lemma NextPlaced(fs: FS, nd: nat, c: Call, fs': FS, r: Pending)
    requires CallOk(c) && c.issued < c.len && FileFits(fs, c) && Conserved(fs)
    requires c.write ==> Allocates(fs, c.file, c.pos + c.issued)
    requires Found(fs, nd, c.file, c.pos + c.issued, c.write, fs', r.did, r.dlba)
    requires r.file == c.file && r.off == c.pos + c.issued && r.nblk == Ch(c).nblk
    ensures Conserved(fs') && Extended(PlacesOf(fs, nd), PlacesOf(fs', nd)) && SameFiles(fs, fs')
    ensures r.did < nd && Placed(PlacesOf(fs', nd), r)
  {
    NextFits(c, iset{});
    FoundOk(fs, nd, c.file, c.pos + c.issued, c.write, fs', r.did, r.dlba, SECTOR * r.nblk);
  }

  /** Issuing, once the file system has the places for the request. */
  lemma IssueAt(at: Places, disks: seq<Store>, calls: map<nat, Call>, reqs: map<Key, Pending>, mem: Store, spec: ByteMap,
                id: nat, k: Key, r: Pending)
    requires Core(at, disks, reqs, spec) && Hosts(at, calls, reqs, mem, spec)
    requires IsNext(at, calls, reqs, mem, id, k, r) && r.did < |disks|
    ensures var calls' := calls[id := Advance(calls[id], r.wild)];
            if r.write then
              var spec' := SpecWrite(spec, r.file, r.off, r.data, SECTOR * r.nblk, r.wild);
              Core(at, disks, reqs[k := r], spec') && Hosts(at, calls', reqs[k := r], mem, spec')
            else Core(at, disks, reqs[k := r], spec) && Hosts(at, calls', reqs[k := r], mem, spec)
  {
    NextFits(calls[id], r.wild);
    NextCalls(calls, id, r.wild);
    NextOwned(at, calls, reqs, mem, id, k, r);
    NextClear(at, calls, reqs, mem, id, k, r);
    if r.write {
      WriteIssued(calls, reqs, mem, spec, id, k, r);
      forall l | l in reqs && !reqs[l].write ensures !Meets(r, reqs[l]) {
        NextMeetsNoRead(at, calls, reqs, mem, id, k, r, l);
      }
      WriteIssueOk(at, disks, reqs, spec, k, r);
    } else {
      ReadIssued(calls, reqs, mem, spec, id, k, r);
      ReadIssueOk(at, disks, reqs, spec, k, r);
    }
  }

  /** What issuing a request does, field by field. */
  lemma IssueFields(s: State, id: nat, k: Key, s': State)
    requires Issues(s, id, k, s')
    ensures |s'.disks| == |s.disks| > 0 && s'.disks == s.disks && s'.mem == s.mem && k in s'.reqs && k !in s.reqs
    ensures id in s.calls && s.calls[id].issued < s.calls[id].len
    ensures var c, r := s.calls[id], s'.reqs[k];
            && r == NextReq(id, c, s.mem, r.did, r.dlba, r.wild) && r.wild == WildIn(At(s'), s.reqs, r.file, r.off, SECTOR * r.nblk)
            && s'.calls == s.calls[id := Advance(c, r.wild)] && s'.reqs == s.reqs[k := r] && r.write == c.write
            && s'.spec == (if r.write then SpecWrite(s.spec, r.file, r.off, r.data, SECTOR * r.nblk, r.wild) else s.spec)
            && (c.write ==> Allocates(s.fs, c.file, c.pos + c.issued))
            && Found(s.fs, |s.disks|, c.file, c.pos + c.issued, c.write, s'.fs, r.did, r.dlba)
            && r.file == c.file && r.off == c.pos + c.issued && r.nblk == Ch(c).nblk
  {
  }

  /** Where the request is placed. */
  lemma Issued(s: State, id: nat, k: Key, s': State)
    requires Inv(s) && Issues(s, id, k, s')
    ensures |s'.disks| == |s.disks| > 0 && k in s'.reqs && Conserved(s'.fs)
    ensures Extended(At(s), At(s')) && PlacesOk(At(s'), |s.disks|) && SameFiles(s.fs, s'.fs)
    ensures IsNext(At(s'), s.calls, s.reqs, s.mem, id, k, s'.reqs[k]) && s'.reqs[k].did < |s.disks|
  {
    hide Issues, Core, OwnersOk, Clear, Settled, WildIn, Found, Allocates, Extended, NextReq, Placed, Ch;
    IssueFields(s, id, k, s');
    assert FileFits(s.fs, s.calls[id]);
    NextPlaced(s.fs, |s.disks|, s.calls[id], s'.fs, s'.reqs[k]);
    PlacesInjective(s'.fs, |s.disks|);
  }

  lemma IssueInv(s: State, id: nat, k: Key, s': State)
    requires Inv(s) && Issues(s, id, k, s')
    ensures Inv(s')
  {
    hide Issues, Core, CallsOk, OwnersOk, Clear, Settled, Extended, PlacesOf, PlacesOk, SpecWrite, IsNext, Advance, NextReq, FileFits, Found, Allocates;
    IssueFields(s, id, k, s');
    Issued(s, id, k, s');
    var r := s'.reqs[k];
    GrownCore(At(s), At(s'), s.disks, s.calls, s.reqs, s.mem, s.spec);
    IssueAt(At(s'), s.disks, s.calls, s.reqs, s.mem, s.spec, id, k, r);
    GrownFiles(s.fs, s'.fs, s.calls, id, r.wild);
  }

  lemma GrownCore(at: Places, at': Places, disks: seq<Store>, calls: map<nat, Call>, reqs: map<Key, Pending>, mem: Store, spec: ByteMap)
    requires Core(at, disks, reqs, spec) && Hosts(at, calls, reqs, mem, spec) && PlacesOk(at', |disks|) && Extended(at, at')
    ensures Core(at', disks, reqs, spec) && Hosts(at', calls, reqs, mem, spec)
  {
    ExtendOk(at, at', disks, reqs, spec);
    MorePlaces(at, at', calls, reqs);
  }

  /** No write is waiting at a byte that a read is to transfer, the wild ones excepted. */
  lemma ReadClear(at: Places, calls: map<nat, Call>, reqs: map<Key, Pending>, k: Key, x: int)
    requires CallsOk(calls) && OwnersOk(at, calls, reqs) && Clear(at, calls, reqs) && k in reqs && !reqs[k].write
    requires reqs[k].off <= x < reqs[k].off + reqs[k].len && x !in calls[reqs[k].call].wild
    ensures (reqs[k].file, x) in at && !Dirty(reqs, at[(reqs[k].file, x)])
  {
    var r := reqs[k];
    var c := calls[r.call];
    assert InCall(r, c);
    assert ClearAt(at, r.call, c, reqs, x);
  }

  lemma ExecuteInv(s: State, k: Key, sectors: seq<byte>)
    requires Inv(s) && CanExecute(s, k, sectors)
    ensures Inv(Executes(s, k, sectors))
  {
    ExecuteCore(At(s), s.disks, s.calls, s.reqs, s.mem, s.spec, k, sectors);
    var stage := if s.reqs[k].write then Volume.Executed([]) else Volume.Executed(sectors);
    Restaged(At(s), s.calls, s.reqs, s.mem, s.spec, k, stage);
    FewerClear(At(s), s.calls, s.reqs, s.reqs[k := s.reqs[k].(stage := stage)]);
  }

  lemma ExecuteCore(at: Places, disks: seq<Store>, calls: map<nat, Call>, reqs: map<Key, Pending>, mem: Store, spec: ByteMap,
                    k: Key, sectors: seq<byte>)
    requires Core(at, disks, reqs, spec) && Hosts(at, calls, reqs, mem, spec)
    requires k in reqs && reqs[k].stage.Waiting? && |sectors| == SECTOR * reqs[k].nblk
    requires reqs[k].write ==> reqs[k].data <= sectors
    requires !reqs[k].write ==> sectors == Get(disks[reqs[k].did], SECTOR * reqs[k].dlba, SECTOR * reqs[k].nblk)
    ensures var r := reqs[k];
            if r.write then
              Core(at, disks[r.did := Put(disks[r.did], SECTOR * r.dlba, sectors)], reqs[k := r.(stage := Volume.Executed([]))], spec)
            else Core(at, disks, reqs[k := r.(stage := Volume.Executed(sectors))], spec)
  {
    var r := reqs[k];
    assert ReqOk(at, spec, r);
    if r.write {
      WriteReaches(at, disks, reqs, spec, k, sectors);
    } else {
      assert InCall(r, calls[r.call]);
      forall x | r.off <= x < r.off + r.len && x !in r.wild && (r.file, x) in at ensures !Dirty(reqs, at[(r.file, x)]) {
        ReadClear(at, calls, reqs, k, x);
      }
      ReadSees(at, disks, reqs, spec, k);
      BytesKept(at, disks, reqs, reqs[k := r.(stage := Volume.Executed(sectors))], spec);
    }
  }

  lemma ConsumeInv(s: State, k: Key)
    requires Inv(s) && k in s.reqs && s.reqs[k].stage.Executed?
    ensures !s.reqs[k].write ==> s.reqs[k].len <= |s.reqs[k].stage.got|
    ensures Inv(Consumes(s, k))
  {
    hide Conserved, FilesOk, PlacesOf, Placed, InCall, WriteOk, PlacesOk, BytesOk, CallsOk, Clear, Settled;
    var r, at := s.reqs[k], At(s);
    assert ReqOk(at, s.spec, r);
    BytesKept(at, s.disks, s.reqs, s.reqs - {k}, s.spec);
    if r.write {
      WriteOver(s.calls, s.reqs, s.mem, s.spec, k);
    } else {
      ReadDelivered(at, s.calls, s.reqs, s.mem, s.spec, k, r.stage.got);
    }
    FewerClear(at, s.calls, s.reqs, s.reqs - {k});
  }

  lemma OpenInv(s: State, name: string)
    requires Inv(s) && name != "" && OpenSlot(s.fs.files, name) < |s.fs.files|
    ensures Inv(s.(fs := s.fs.(files := OpenFiles(s.fs.files, name))))
  {
    OpenConserves(s.fs, name);
    OpenPlaces(s.fs, |s.disks|, name);
    var fs' := s.fs.(files := OpenFiles(s.fs.files, name));
    forall a | a in s.calls ensures FileFits(fs', s.calls[a]) {
      assert FileFits(s.fs, s.calls[a]);
    }
  }

  /** Removing a file: its places go, the others stay; writes it has left under way keep waiting. */
  lemma UnlinkHosts(at: Places, at': Places, disks: seq<Store>, calls: map<nat, Call>, reqs: map<Key, Pending>, mem: Store,
                    spec: ByteMap, file: nat)
    requires Core(at, disks, reqs, spec) && Hosts(at, calls, reqs, mem, spec) && PlacesOk(at', |disks|)
    requires forall p {:trigger p in at'} :: p in at' <==> p in at && p.0 != file
    requires forall p {:trigger at'[p]} :: p in at' ==> at'[p] == at[p]
    requires forall a {:trigger calls[a]} :: a in calls ==> calls[a].file != file
    ensures Core(at', disks, reqs, SpecErase(spec, file)) && Hosts(at', calls, reqs, mem, SpecErase(spec, file))
  {
    FewerPlaces(at, at', calls, reqs, file);
    EraseOk(at, at', disks, reqs, spec, file);
    forall a, x | a in calls && calls[a].buf <= x < calls[a].buf + Done(calls[a])
      ensures SettledAt(a, calls[a], reqs, mem, SpecErase(spec, file), x)
    {
      assert SettledAt(a, calls[a], reqs, mem, spec, x);
    }
  }

  lemma UnlinkInv(s: State, file: nat, s': State)
    requires Inv(s) && Step(s, Unlink(file), s')
    ensures Inv(s')
  {
    UnlinkConserves(s.fs, file, s'.fs);
    UnlinkPlaces(s.fs, |s.disks|, file, s'.fs);
    PlacesInjective(s'.fs, |s.disks|);
    UnlinkHosts(At(s), At(s'), s.disks, s.calls, s.reqs, s.mem, s.spec, file);
    forall a | a in s.calls ensures FileFits(s'.fs, s.calls[a]) {
      assert FileFits(s.fs, s.calls[a]);
    }
  }

  lemma BeginInv(s: State, id: nat, c: Call)
    requires Inv(s) && c.file < |s.fs.files| && s.fs.files[c.file].name != "" && MayBegin(s.calls, s.reqs, id, c)
    requires c.write || c.pos + c.len <= s.fs.files[c.file].nBlock * BLOCK_SIZE
    ensures Inv(s.(calls := s.calls[id := c]))
  {
    Begun(At(s), s.calls, s.reqs, s.mem, s.spec, id, c);
    BegunClear(At(s), s.calls, s.reqs, id, c);
  }

  lemma ClientSettled(calls: map<nat, Call>, reqs: map<Key, Pending>, mem: Store, mem': Store, spec: ByteMap)
    requires Settled(calls, reqs, mem, spec)
    requires forall a, x {:trigger calls[a], mem'(x)} :: a in calls && calls[a].buf <= x < calls[a].buf + calls[a].len ==> mem'(x) == mem(x)
    ensures Settled(calls, reqs, mem', spec)
  {
    forall a, x | a in calls && calls[a].buf <= x < calls[a].buf + Done(calls[a])
      ensures SettledAt(a, calls[a], reqs, mem', spec, x)
    {
      assert SettledAt(a, calls[a], reqs, mem, spec, x);
      assert mem'(x) == mem(x);
    }
  }

  /** Every step keeps the invariant. */
  lemma StepInv(s: State, e: Event, s': State)
    requires Inv(s) && Step(s, e, s')
    ensures Inv(s')
  {
    match e
    case Begin(id, write, file, pos, len, buf) => BeginInv(s, id, NewCall(s.fs, write, file, pos, len, buf));
    case Issue(id, k) => IssueInv(s, id, k, s');
    case Execute(k, sectors) => ExecuteInv(s, k, sectors);
    case Consume(k) => ConsumeInv(s, k);
    case End(id) => Ended(At(s), s.calls, s.reqs, s.mem, s.spec, id);
    case Open(name) => OpenInv(s, name);
    case Unlink(file) => UnlinkInv(s, file, s');
    case Client => ClientSettled(s.calls, s.reqs, s.mem, s'.mem, s.spec);
  }

  /** Nothing happening is a step too. */
  lemma Idle(s: State)
    ensures Step(s, Client, s)
  {
  }
}
