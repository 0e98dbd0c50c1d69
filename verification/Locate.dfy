/** What myfs_get_lba does for the next request of a call, seen from the map of places. */
module Locate {
  import opened Sizes
  import opened Myfs
  import opened Layout
  import A = Addressing
  import M = Modular

  /** A write may allocate only from a ring that holds a block, and leaves no hole. */
  predicate Allocates(fs: FS, i: nat, x: nat) {
    && fs.rp < |fs.free| && fs.wp < |fs.free| && i < |fs.files|
    && var f, ib := fs.files[i], x / BLOCK_SIZE;
    && ib < |f.block|
    && (f.block[ib] == INACTIVE ==> FreeCount(fs.rp, fs.wp, |fs.free|) > 0 && ib <= f.nBlock)
  }

  /** Translating offset x of file i leads to sector `dlba` of drive `did`, and changes the file system to fs'. */
  ghost predicate Found(fs: FS, nd: nat, i: nat, x: nat, write: bool, fs': FS, did: nat, dlba: nat) {
    && nd > 0 && fs.rp < |fs.free| && i < |fs.files| && x / BLOCK_SIZE < |fs.files[i].block|
    && var (g, lba) := GetLba(fs, i, x, write);
    && g == fs' && lba.Some? && did == A.Drive(lba.value, nd) && dlba == A.DriveLba(lba.value, nd)
  }

  /** The same names, and no file shorter. */
  predicate SameFiles(fs: FS, fs': FS) {
    && |fs'.files| == |fs.files|
    && forall i {:trigger fs'.files[i]} :: 0 <= i < |fs.files| ==>
         fs'.files[i].name == fs.files[i].name && fs.files[i].nBlock <= fs'.files[i].nBlock
  }

  /** Allocation at the end of a table takes a block and keeps everything else. */
  lemma Grows(fs: FS, nd: nat, i: nat)
    requires nd > 0 && Conserved(fs) && i < |fs.files| && fs.files[i].name != ""
    requires FreeCount(fs.rp, fs.wp, |fs.free|) > 0 && fs.files[i].nBlock < |fs.files[i].block|
    ensures var n, fs' := fs.files[i].nBlock, AllocateAt(fs, i, fs.files[i].nBlock);
            && Conserved(fs') && Extended(PlacesOf(fs, nd), PlacesOf(fs', nd)) && SameFiles(fs, fs')
            && fs'.files[i].name != "" && fs'.files[i].nBlock == n + 1 && fs'.files[i].block[n] >= 0
  {
    AllocateKeeps(fs, i);
    AllocateExtends(fs, nd, i);
    NextFree(fs);
  }

  lemma ActiveAllocated(fs: FS, i: nat, x: nat)
    requires Conserved(fs) && i < |fs.files| && x / BLOCK_SIZE < |fs.files[i].block| && fs.files[i].block[x / BLOCK_SIZE] != INACTIVE
    ensures Allocated(fs, i, x)
  {
    assert FileOk(fs.files[i]);
    EntryActive(fs, i, x / BLOCK_SIZE);
  }

  /** Translating the offset of a write allocates at the end of the table if at all. */
  lemma WriteAllocates(fs: FS, nd: nat, i: nat, x: nat)
    requires nd > 0 && Conserved(fs) && Allocates(fs, i, x) && fs.files[i].name != ""
    ensures var fs' := GetLba(fs, i, x, true).0;
            && Conserved(fs') && Extended(PlacesOf(fs, nd), PlacesOf(fs', nd)) && SameFiles(fs, fs') && Allocated(fs', i, x)
  {
    var ib := x / BLOCK_SIZE;
    var fs' := GetLba(fs, i, x, true).0;
    if fs.files[i].block[ib] == INACTIVE {
      NotInTable(fs, i, ib);
      assert ib == fs.files[i].nBlock;
      Grows(fs, nd, i);
      assert fs' == AllocateAt(fs, i, fs.files[i].nBlock);
    } else {
      ActiveAllocated(fs, i, x);
      assert fs' == fs;
    }
  }

  /** An offset inside a file has a place. */
  lemma InsideAllocated(fs: FS, i: nat, x: nat)
    requires Conserved(fs) && i < |fs.files| && x < HeldBy(fs.files[i]) * BLOCK_SIZE
    ensures Allocated(fs, i, x)
  {
    assert FileOk(fs.files[i]);
    M.DivBounds(x, BLOCK_SIZE, HeldBy(fs.files[i]));
    if fs.files[i].block[x / BLOCK_SIZE] == INACTIVE {
      NotInTable(fs, i, x / BLOCK_SIZE);
    } else {
      EntryActive(fs, i, x / BLOCK_SIZE);
    }
  }

  /** The sectors of a page of a file, from x on, are one run on one drive. */
  lemma RunAt(fs: FS, nd: nat, i: nat, x: nat, n: nat)
    requires nd > 0 && Allocated(fs, i, x) && x % SECTOR == 0 && x % BLKSZ + n <= BLKSZ
    ensures var lba := LbaOf(fs, i, x);
            && A.Drive(lba, nd) < nd
            && Contiguous(PlacesOf(fs, nd), i, x, n, A.Drive(lba, nd), SECTOR * A.DriveLba(lba, nd))
  {
    PageContiguous(fs, nd, i, x, n);
    A.RaidInjective(LbaOf(fs, i, x), nd);
  }

  /** What a translation leaves true: for a write under the premises of allocation, for a read inside the file. */
  lemma FoundOk(fs: FS, nd: nat, i: nat, x: nat, write: bool, fs': FS, did: nat, dlba: nat, n: nat)
    requires Found(fs, nd, i, x, write, fs', did, dlba) && Conserved(fs) && fs.files[i].name != ""
    requires if write then Allocates(fs, i, x) else x < fs.files[i].nBlock * BLOCK_SIZE
    requires x % SECTOR == 0 && x % BLKSZ + n <= BLKSZ
    ensures Conserved(fs') && Extended(PlacesOf(fs, nd), PlacesOf(fs', nd)) && SameFiles(fs, fs')
    ensures did < nd && Contiguous(PlacesOf(fs', nd), i, x, n, did, SECTOR * dlba)
  {
    if write {
      WriteAllocates(fs, nd, i, x);
    } else {
      InsideAllocated(fs, i, x);
    }
    RunAt(fs', nd, i, x, n);
  }

  /** The assertion in myfs_get_lba never fails: a write under the premises and a read inside the file find a block. */
  lemma Finds(fs: FS, nd: nat, i: nat, x: nat, write: bool) returns (fs': FS, did: nat, dlba: nat)
    requires nd > 0 && Conserved(fs) && i < |fs.files| && fs.files[i].name != ""
    requires if write then Allocates(fs, i, x) else x < fs.files[i].nBlock * BLOCK_SIZE
    ensures Found(fs, nd, i, x, write, fs', did, dlba)
  {
    if write {
      WriteAllocates(fs, nd, i, x);
    } else {
      InsideAllocated(fs, i, x);
    }
    var (g, lba) := GetLba(fs, i, x, write);
    fs', did, dlba := g, A.Drive(lba.value, nd), A.DriveLba(lba.value, nd);
  }
}
