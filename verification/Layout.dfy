/** Where the bytes of files are on the drives, through the block tables and the RAID split. */
module Layout {
  import opened Myfs
  import opened Sizes
  import A = Addressing
  import M = Modular

  /** The sectors and the 4 KiB pages of a block. */
  const PER_BLOCK: nat := BLOCK_SIZE / SECTOR
  const PAGES: nat := BLOCK_SIZE / BLKSZ

  predicate Allocated(fs: FS, i: nat, x: int) {
    && i < |fs.files|
    && 0 <= x
    && x / BLOCK_SIZE < HeldBy(fs.files[i]) <= |fs.files[i].block|
    && fs.files[i].block[x / BLOCK_SIZE] >= 0
  }

  function LbaOf(fs: FS, i: nat, x: nat): nat
    requires Allocated(fs, i, x)
  {
    BlockLba(fs.files[i].block[x / BLOCK_SIZE], x)
  }

  /** The drive and the byte address on it. */
  function Loc(fs: FS, nd: nat, i: nat, x: nat): (nat, nat)
    requires nd > 0 && Allocated(fs, i, x)
  {
    (A.Drive(LbaOf(fs, i, x), nd), SECTOR * A.DriveLba(LbaOf(fs, i, x), nd) + x % SECTOR)
  }

  lemma LocDrive(fs: FS, nd: nat, i: nat, x: nat)
    requires nd > 0 && Allocated(fs, i, x)
    ensures Loc(fs, nd, i, x).0 < nd
  {
    A.RaidInjective(LbaOf(fs, i, x), nd);
  }

  /** The sectors of a block are numbered by block and position; the number determines both. */
  lemma LbaParts(b: nat, x: nat)
    ensures BlockLba(b, x) == b * PER_BLOCK + x % BLOCK_SIZE / SECTOR
    ensures x % BLOCK_SIZE / SECTOR < PER_BLOCK
    ensures x % BLOCK_SIZE == x % BLOCK_SIZE / SECTOR * SECTOR + x % SECTOR
  {
    var y := x % BLOCK_SIZE;
    M.DivModUnique(b * BLOCK_SIZE + y, SECTOR, b * PER_BLOCK + y / SECTOR, y % SECTOR);
    M.DivModUnique(x, SECTOR, x / BLOCK_SIZE * PER_BLOCK + y / SECTOR, y % SECTOR);
  }

  lemma LbaInjective(b: nat, x: nat, c: nat, y: nat)
    requires BlockLba(b, x) == BlockLba(c, y) && x % SECTOR == y % SECTOR
    ensures b == c && x % BLOCK_SIZE == y % BLOCK_SIZE
  {
    hide BlockLba;
    LbaParts(b, x);
    LbaParts(c, y);
    M.DivModUnique(BlockLba(b, x), PER_BLOCK, b, x % BLOCK_SIZE / SECTOR);
    M.DivModUnique(BlockLba(c, y), PER_BLOCK, c, y % BLOCK_SIZE / SECTOR);
  }

  /** No two bytes of files, allocated at the same time, are the same byte of a drive. */
  lemma LocInjective(fs: FS, nd: nat, i: nat, x: nat, j: nat, y: nat)
    requires nd > 0 && Conserved(fs) && Allocated(fs, i, x) && Allocated(fs, j, y)
    requires Loc(fs, nd, i, x) == Loc(fs, nd, j, y)
    ensures i == j && x == y
  {
    hide Conserved, A.DriveLba, A.Drive, A.GlobalLba, BlockLba;
    var p, q := LbaOf(fs, i, x), LbaOf(fs, j, y);
    M.DivModUnique(Loc(fs, nd, i, x).1, SECTOR, A.DriveLba(p, nd), x % SECTOR);
    M.DivModUnique(Loc(fs, nd, j, y).1, SECTOR, A.DriveLba(q, nd), y % SECTOR);
    A.RaidInjective(p, nd);
    A.RaidInjective(q, nd);
    LbaInjective(fs.files[i].block[x / BLOCK_SIZE], x, fs.files[j].block[y / BLOCK_SIZE], y);
    if (i, x / BLOCK_SIZE) != (j, y / BLOCK_SIZE) {
      TablesDisjoint(fs, i, x / BLOCK_SIZE, j, y / BLOCK_SIZE);
    }
  }

  /** The bytes of a page are in one block, one after the other. */
  lemma InPage(off: nat, t: nat)
    requires off % BLKSZ + t < BLKSZ
    ensures (off + t) / BLOCK_SIZE == off / BLOCK_SIZE && (off + t) % BLOCK_SIZE == off % BLOCK_SIZE + t
    ensures off % BLOCK_SIZE == off / BLKSZ % PAGES * BLKSZ + off % BLKSZ
  {
    BlockOf(off / BLKSZ, off % BLKSZ);
    BlockOf(off / BLKSZ, off % BLKSZ + t);
  }

  lemma BlockOf(page: nat, y: nat)
    requires y < BLKSZ
    ensures (page * BLKSZ + y) / BLOCK_SIZE == page / PAGES && (page * BLKSZ + y) % BLOCK_SIZE == page % PAGES * BLKSZ + y
  {
    var q, r := page / 512, page % 512;
    assert PAGES == 512 && BLOCK_SIZE == 512 * BLKSZ;
    assert page * BLKSZ + y == q * BLOCK_SIZE + (r * BLKSZ + y) by {
      assert page == 512 * q + r;
    }
    assert r * BLKSZ + y < BLOCK_SIZE;
    M.DivModUnique(page * BLKSZ + y, BLOCK_SIZE, q, r * BLKSZ + y);
  }

  /** So their sectors follow one another too, and lie in one stripe. */
  lemma PageLba(b: nat, off: nat, t: nat)
    requires off % SECTOR == 0 && off % BLKSZ + t < BLKSZ
    ensures BlockLba(b, off + t) == BlockLba(b, off) + t / SECTOR && (off + t) % SECTOR == t % SECTOR
    ensures BlockLba(b, off) % A.RAID_FACTOR + t / SECTOR < A.RAID_FACTOR
  {
    hide BlockLba;
    InPage(off, t);
    LbaParts(b, off);
    LbaParts(b, off + t);
    var z, page, inPage := off % BLOCK_SIZE, off / BLKSZ, off % BLKSZ;
    M.DivModUnique(off + t, SECTOR, off / SECTOR + t / SECTOR, t % SECTOR);
    M.DivModUnique(z + t, SECTOR, z / SECTOR + t / SECTOR, t % SECTOR);
    M.DivModUnique(BlockLba(b, off), A.RAID_FACTOR, b * PAGES + page % PAGES, inPage / SECTOR);
  }

  /** The bytes of a file that lie in one 4 KiB page are contiguous on one drive. */
  lemma LocRun(fs: FS, nd: nat, i: nat, off: nat, t: nat)
    requires nd > 0 && Allocated(fs, i, off) && off % SECTOR == 0 && off % BLKSZ + t < BLKSZ
    ensures Allocated(fs, i, off + t)
    ensures Loc(fs, nd, i, off + t) == (Loc(fs, nd, i, off).0, Loc(fs, nd, i, off).1 + t)
  {
    hide A.DriveLba, A.Drive, BlockLba;
    InPage(off, t);
    PageLba(fs.files[i].block[off / BLOCK_SIZE], off, t);
    A.RaidStripe(LbaOf(fs, i, off), t / SECTOR, nd);
  }

  // ---- the map of a file system ---------------------------------------------------------

  /** For each byte of each file that has a place: the drive and the address there. */
  type Places = imap<(nat, int), (nat, nat)>

  ghost function PlacesOf(fs: FS, nd: nat): Places
    requires nd > 0
  {
    imap p: (nat, int) | Allocated(fs, p.0, p.1) :: Loc(fs, nd, p.0, p.1)
  }

  ghost predicate Injective(at: Places) {
    forall p, q {:trigger at[p], at[q]} :: p in at && q in at && at[p] == at[q] ==> p == q
  }

  lemma PlacesInjective(fs: FS, nd: nat)
    requires nd > 0 && Conserved(fs)
    ensures Injective(PlacesOf(fs, nd))
    ensures forall p {:trigger PlacesOf(fs, nd)[p]} :: p in PlacesOf(fs, nd) ==> PlacesOf(fs, nd)[p].0 < nd
  {
    var at := PlacesOf(fs, nd);
    forall p, q | p in at && q in at && at[p] == at[q] ensures p == q {
      LocInjective(fs, nd, p.0, p.1, q.0, q.1);
    }
    forall p | p in at ensures at[p].0 < nd {
      LocDrive(fs, nd, p.0, p.1);
    }
  }

  /** Every place of `at` is the same in `at'`. */
  ghost predicate Extended(at: Places, at': Places) {
    forall p {:trigger p in at} {:trigger p in at'} :: p in at ==> p in at' && at'[p] == at[p]
  }

  lemma AllocateExtends(fs: FS, nd: nat, i: nat)
    requires nd > 0 && Conserved(fs) && i < |fs.files| && fs.files[i].name != "" && fs.files[i].nBlock < |fs.files[i].block|
    ensures Extended(PlacesOf(fs, nd), PlacesOf(AllocateAt(fs, i, fs.files[i].nBlock), nd))
  {
    var fs' := AllocateAt(fs, i, fs.files[i].nBlock);
    forall p | p in PlacesOf(fs, nd) ensures Allocated(fs', p.0, p.1) && Loc(fs', nd, p.0, p.1) == Loc(fs, nd, p.0, p.1) {
    }
  }

  /** A run inside one page stands at consecutive addresses of one drive. */
  ghost predicate Contiguous(at: Places, file: nat, off: nat, size: nat, did: nat, addr: nat) {
    forall x {:trigger at[(file, x)]} {:trigger (file, x) in at} :: off <= x < off + size ==>
      (file, x) in at && at[(file, x)] == (did, addr + x - off)
  }

  lemma PageContiguous(fs: FS, nd: nat, i: nat, off: nat, size: nat)
    requires nd > 0 && Allocated(fs, i, off) && off % SECTOR == 0 && off % BLKSZ + size <= BLKSZ
    ensures Contiguous(PlacesOf(fs, nd), i, off, size, Loc(fs, nd, i, off).0, SECTOR * A.DriveLba(LbaOf(fs, i, off), nd))
  {
    var at := PlacesOf(fs, nd);
    forall x | off <= x < off + size ensures (i, x) in at && at[(i, x)] == (Loc(fs, nd, i, off).0, Loc(fs, nd, i, off).1 + x - off) {
      LocRun(fs, nd, i, off, x - off);
    }
  }

  /** A byte's place depends only on its own file's table. */
  lemma PlaceByTable(fs: FS, fs': FS, nd: nat, i: nat, x: int)
    requires nd > 0
    requires i < |fs.files| <==> i < |fs'.files|
    requires i < |fs.files| ==> fs'.files[i].block == fs.files[i].block && HeldBy(fs'.files[i]) == HeldBy(fs.files[i])
    ensures Allocated(fs', i, x) <==> Allocated(fs, i, x)
    ensures Allocated(fs, i, x) ==> Loc(fs', nd, i, x) == Loc(fs, nd, i, x)
  {
  }

  lemma UnlinkPlace(fs: FS, nd: nat, i: nat, fs': FS, j: nat, x: int)
    requires nd > 0 && i < |fs.files| && fs'.files == fs.files[i := Erased(fs.files[i])]
    ensures Allocated(fs', j, x) <==> Allocated(fs, j, x) && j != i
    ensures Allocated(fs', j, x) ==> Loc(fs', nd, j, x) == Loc(fs, nd, j, x)
  {
    if j != i {
      PlaceByTable(fs, fs', nd, j, x);
    } else {
      assert HeldBy(fs'.files[i]) == 0;
    }
  }

  /** Unlinking takes exactly one file's bytes off the map. */
  lemma UnlinkPlaces(fs: FS, nd: nat, i: nat, fs': FS)
    requires nd > 0 && i < |fs.files| && fs'.files == fs.files[i := Erased(fs.files[i])]
    ensures forall p {:trigger p in PlacesOf(fs', nd)} :: p in PlacesOf(fs', nd) <==> p in PlacesOf(fs, nd) && p.0 != i
    ensures forall p {:trigger PlacesOf(fs', nd)[p]} :: p in PlacesOf(fs', nd) ==> PlacesOf(fs', nd)[p] == PlacesOf(fs, nd)[p]
  {
    forall j: nat, x: int
      ensures Allocated(fs', j, x) <==> Allocated(fs, j, x) && j != i
      ensures Allocated(fs', j, x) ==> Loc(fs', nd, j, x) == Loc(fs, nd, j, x)
    {
      UnlinkPlace(fs, nd, i, fs', j, x);
    }
  }

  /** Opening or creating a file moves nothing. */
  lemma OpenPlaces(fs: FS, nd: nat, filename: string)
    requires nd > 0 && Conserved(fs) && filename != "" && OpenSlot(fs.files, filename) < |fs.files|
    ensures PlacesOf(fs.(files := OpenFiles(fs.files, filename)), nd) == PlacesOf(fs, nd)
  {
    var e := OpenSlot(fs.files, filename);
    var fs' := fs.(files := OpenFiles(fs.files, filename));
    var at, at' := PlacesOf(fs, nd), PlacesOf(fs', nd);
    assert HeldBy(fs'.files[e]) == HeldBy(fs.files[e]) && fs'.files[e].block == fs.files[e].block;
    forall p: (nat, int)
      ensures (p in at' <==> p in at) && (p in at ==> at'[p] == at[p])
    {
      PlaceByTable(fs, fs', nd, p.0, p.1);
    }
  }
}
