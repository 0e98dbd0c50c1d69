/** The mounted superblock: the allocator and name table of Myfs, updated in place. */
module Superblock {
  import opened Modular
  import opened Wrappers
  import opened Myfs
  import opened Sizes

  /** The first j blocks of the file have gone to the free list, and their entries are inactive. */
  ghost predicate Unlinking(fs0: FS, fd: nat, j: nat, fs: FS) {
    && fs0.rp < |fs0.free| && fs0.wp < |fs0.free| && fd < |fs0.files| && j <= |Table(fs0.files[fd])| <= |fs0.files[fd].block|
    && fs.rp == fs0.rp && |fs.free| == |fs0.free| && fs.wp < |fs.free|
    && |fs.files| == |fs0.files| && fs.files == fs0.files[fd := fs.files[fd]]
    && fs.files[fd] == fs0.files[fd].(block := fs.files[fd].block) && |fs.files[fd].block| == |fs0.files[fd].block|
    && FreeList(fs.free, fs.rp, fs.wp) == FreeList(fs0.free, fs0.rp, fs0.wp) + Table(fs0.files[fd])[..j]
    && (forall k {:trigger fs.files[fd].block[k]} :: j <= k < |fs.files[fd].block| ==> fs.files[fd].block[k] == fs0.files[fd].block[k])
    && (forall k {:trigger fs.files[fd].block[k]} :: 0 <= k < j ==> fs.files[fd].block[k] == INACTIVE)
  }

  lemma UnlinkBegins(fs: FS, fd: nat)
    requires Conserved(fs) && fd < |fs.files| && fs.files[fd].name != ""
    ensures Unlinking(fs, fd, 0, fs) && fs.files[fd].nBlock == |Table(fs.files[fd])| <= |fs.files[fd].block|
  {
    assert FileOk(fs.files[fd]);
  }

  /** One turn of the loop, as long as there is room, which there is. */
  lemma UnlinkTurn(fs0: FS, fd: nat, j: nat, fs: FS)
    requires Conserved(fs0) && Unlinking(fs0, fd, j, fs) && j < |Table(fs0.files[fd])|
    ensures j < |fs.files[fd].block|
    ensures var f := fs.files[fd];
            Unlinking(fs0, fd, j + 1, FS(fs.free[fs.wp := f.block[j]], fs.rp, (fs.wp + 1) % |fs.free|,
                                         fs.files[fd := f.(block := f.block[j := INACTIVE])]))
  {
    hide Conserved, FreeList;
    UnlinkRoom(fs0, fd);
    NextIsMod(fs.wp, |fs.free|);
    PushFree(fs.free, fs.rp, fs.wp, fs.files[fd].block[j]);
    var table := Table(fs0.files[fd]);
    assert table[..j + 1] == table[..j] + [table[j]];
  }

  lemma UnlinkEnds(fs0: FS, fd: nat, fs: FS)
    requires Conserved(fs0) && fd < |fs0.files| && Unlinking(fs0, fd, |Table(fs0.files[fd])|, fs) && fs0.files[fd].name != ""
    ensures var f := Erased(fs0.files[fd]);
            && fs.files[fd].(name := "", nBlock := 0, refs := 0, isOpen := false, unlinked := false) == f
            && fs.files[fd := f] == fs0.files[fd := f] && Conserved(fs.(files := fs0.files[fd := f]))
    ensures fs0.rp < |fs0.free| && fs0.wp < |fs0.free|
    ensures FreeList(fs.free, fs.rp, fs.wp) == FreeList(fs0.free, fs0.rp, fs0.wp) + Table(fs0.files[fd])
  {
    assert FileOk(fs0.files[fd]);
    assert fs.files[fd].block == Erased(fs0.files[fd]).block;
    assert Table(fs0.files[fd])[..|Table(fs0.files[fd])|] == Table(fs0.files[fd]);
    UnlinkConserves(fs0, fd, fs.(files := fs0.files[fd := Erased(fs0.files[fd])]));
  }

  /** No name, no block, no reference, no flag. */
  predicate Blank(f: File) {
    && f.name == "" && f.nBlock == 0 && f.refs == 0 && !f.isOpen && !f.unlinked
    && forall k {:trigger f.block[k]} :: 0 <= k < |f.block| ==> f.block[k] == -1
  }

  /** An unlinked file is gone, or only marked while somebody holds it. */
  predicate Tried(f: File, f': File) {
    if f.refs == 0 then Blank(f') && |f'.block| == |f.block| else f' == f.(unlinked := true)
  }

  class Superblock {
    const freeBlocks: array<int>
    var rp: nat
    var wp: nat
    var files: seq<File>

    ghost function View(): FS
      reads this, freeBlocks
    {
      FS(freeBlocks[..], rp, wp, files)
    }

    /** Every block is in exactly one place. */
    ghost predicate Valid()
      reads this, freeBlocks
    {
      Conserved(View())
    }

    ghost function Free(): seq<int>
      requires rp < freeBlocks.Length && wp < freeBlocks.Length
      reads this, freeBlocks
    {
      FreeList(freeBlocks[..], rp, wp)
    }

    /** myfs_superblock_init over a mapping whose other bytes, n_block among them, are whatever they were. */
    constructor (numBlocks: nat, mapped: seq<File>)
      requires numBlocks > 0
      ensures Valid() && IsInit(View()) && fresh(freeBlocks)
      ensures freeBlocks.Length == numBlocks && |files| == |mapped|
      ensures forall i :: 0 <= i < |mapped| ==> files[i].nBlock == mapped[i].nBlock && |files[i].block| == |mapped[i].block|
    {
      freeBlocks := new int[numBlocks];
      rp, wp := 0, numBlocks - 1;
      files := mapped;
      new;
      var i := 0;
      while i < |files|
        invariant i <= |files| == |mapped|
        invariant forall k :: 0 <= k < |files| ==> files[k].nBlock == mapped[k].nBlock && |files[k].block| == |mapped[k].block|
        invariant forall k {:trigger files[k]} :: 0 <= k < i ==>
                    files[k].name == "" && forall j :: 0 <= j < |files[k].block| ==> files[k].block[j] == INACTIVE
        invariant rp == 0 && wp == numBlocks - 1
      {
        var f := files[i].(name := "");
        var j := 0;
        while j < |f.block|
          invariant j <= |f.block| == |mapped[i].block| && f.nBlock == mapped[i].nBlock && f.name == ""
          invariant forall k :: 0 <= k < j ==> f.block[k] == INACTIVE
        {
          f := f.(block := f.block[j := INACTIVE]);
          j := j + 1;
        }
        files := files[i := f];
        i := i + 1;
      }
      ghost var cleared := files;
      i := 0;
      while i < numBlocks - 1
        invariant i <= numBlocks - 1 && files == cleared && rp == 0 && wp == numBlocks - 1
        invariant forall k :: 0 <= k < i ==> freeBlocks[k] == k
      {
        freeBlocks[i] := i;
        i := i + 1;
      }
      InitConserved(View());
    }

    /** myfs_used_blocks: the number of blocks in named files, except for a full disk. */
    method CountUsed() returns (used: int)
      requires Valid()
      ensures used == if rp == wp then -1 else SumBlocks(files, |files|)
    {
      UsedBlocksExact(View());
      if rp < wp {
        used := rp + freeBlocks.Length - wp - 1;
      } else {
        used := rp - wp - 1;
      }
    }

    /** myfs_get_size. */
    method GetSize(i: nat) returns (size: nat)
      requires Valid() && i < |files| && files[i].name != ""
      ensures size == BLOCK_SIZE * |Table(files[i])|
    {
      assert FileOk(View().files[i]);
      size := files[i].nBlock * BLOCK_SIZE;
    }

    /** __myfs_unlink. */
    method Unlink(fd: nat)
      requires Valid() && fd < |files| && files[fd].name != ""
      modifies this`wp, this`files, freeBlocks
      ensures Valid() && files == old(files)[fd := Erased(old(files)[fd])]
      ensures Free() == old(Free()) + Table(old(files)[fd])
      ensures Blank(files[fd]) && |files[fd].block| == |old(files)[fd].block|
    {
      hide Conserved, FreeList, Table, Unlinking;
      ghost var fs0 := View();
      UnlinkBegins(fs0, fd);
      var j := 0;
      while j < files[fd].nBlock
        invariant j <= |Table(fs0.files[fd])| && Unlinking(fs0, fd, j, View())
        invariant fd < |files| && files[fd].nBlock == |Table(fs0.files[fd])| <= |files[fd].block| && wp < freeBlocks.Length
      {
        UnlinkTurn(fs0, fd, j, View());
        var oldVal := wp;
        ghost var updated := freeBlocks[..][oldVal := files[fd].block[j]];
        wp := (oldVal + 1) % freeBlocks.Length;
        freeBlocks[oldVal] := files[fd].block[j];
        assert freeBlocks[..] == updated;
        files := files[fd := files[fd].(block := files[fd].block[j := INACTIVE])];
        j := j + 1;
      }
      UnlinkEnds(fs0, fd, View());
      files := files[fd := files[fd].(name := "", nBlock := 0, refs := 0, isOpen := false, unlinked := false)];
    }

    /** __myfs_try_unlink: the file goes at once, or stays marked while references are held. */
    method TryUnlink(fd: nat)
      requires Valid() && fd < |files| && files[fd].name != ""
      modifies this`wp, this`files, freeBlocks
      ensures Valid() && files == old(files)[fd := TryErase(old(files)[fd])]
      ensures Free() == old(Free()) + if old(files)[fd].refs == 0 then Table(old(files)[fd]) else []
      ensures Tried(old(files)[fd], files[fd])
    {
      ghost var fs0 := View();
      MarkConserves(fs0, fd, files[fd].(unlinked := true));
      files := files[fd := files[fd].(unlinked := true)];
      if files[fd].refs == 0 {
        Unlink(fd);
      }
    }

    /**
     * myfs_unlink: every file whose name starts with `filename` is tried. The blocks of those erased are
     * free afterwards, since no block is ever lost.
     */
    method UnlinkName(filename: string)
      requires Valid() && filename != ""
      modifies this`wp, this`files, freeBlocks
      ensures Valid() && files == UnlinkFiles(old(files), filename)
      ensures forall i :: 0 <= i < |files| ==>
                if filename <= old(files)[i].name then Tried(old(files)[i], files[i]) else files[i] == old(files)[i]
    {
      hide Conserved, FreeList;
      ghost var files0 := files;
      var i := 0;
      while i < |files|
        invariant Valid() && i <= |files| == |files0|
        invariant forall j {:trigger files[j]} :: 0 <= j < |files| ==>
                    files[j] == if j < i && Matches(filename, files0[j]) then TryErase(files0[j]) else files0[j]
      {
        if filename <= files[i].name {
          TryUnlink(i);
        }
        i := i + 1;
      }
    }

    /** myfs_open. With no match and no free slot the C code would write outside the table. */
    method Open(filename: string) returns (fd: nat)
      requires Valid() && filename != "" && OpenSlot(files, filename) < |files|
      modifies this`files
      ensures Valid() && fd == OpenSlot(old(files), filename) && files == OpenFiles(old(files), filename)
      ensures fd < |files| == |old(files)| && forall j :: 0 <= j < |files| && j != fd ==> files[j] == old(files)[j]
      ensures files[fd].isOpen && !files[fd].unlinked && files[fd].block == old(files)[fd].block
      ensures forall j :: 0 <= j < (if old(files)[fd].name == "" then |files| else fd) ==> !(filename <= old(files)[j].name)
      ensures old(files)[fd].name == "" ==> forall j :: 0 <= j < fd ==> old(files)[j].name != ""
      ensures if old(files)[fd].name == "" then files[fd].name == filename && files[fd].nBlock == 0
              else filename <= files[fd].name == old(files)[fd].name && files[fd].nBlock == old(files)[fd].nBlock
    {
      hide Conserved;
      OpenConserves(View(), filename);
      ghost var goal := View().(files := OpenFiles(files, filename));
      var emptyI := -1;
      var i := 0;
      while i < |files|
        invariant i <= |files| && files == old(files)
        invariant FirstMatch(files, filename, 0) == FirstMatch(files, filename, i)
        invariant if emptyI == -1 then FirstEmpty(files, 0) == FirstEmpty(files, i) else emptyI == FirstEmpty(files, 0) < i
      {
        if filename <= files[i].name {
          files := files[i := files[i].(isOpen := true, unlinked := false)];
          assert View() == goal;
          return i;
        }
        if emptyI == -1 && files[i].name == "" {
          emptyI := i;
        }
        i := i + 1;
      }
      files := files[emptyI := files[emptyI].(name := filename)];
      files := files[emptyI := files[emptyI].(nBlock := 0)];
      files := files[emptyI := files[emptyI].(isOpen := true, unlinked := false)];
      assert View() == goal;
      fd := emptyI;
    }

    /**
     * The allocating branch of myfs_get_lba, one atomic step. It checks nothing: the blocks stay conserved
     * exactly if the ring holds one and the entry is the one behind the table's end.
     */
    method Allocate(i: nat, ib: nat)
      requires Valid() && i < |files| && files[i].name != "" && ib < |files[i].block| && files[i].block[ib] == INACTIVE
      modifies this`rp, this`files
      ensures View() == AllocateAt(old(View()), i, ib) && rp < freeBlocks.Length
      ensures Valid() <==> old(rp != wp) && ib == old(files[i].nBlock)
      ensures Valid() ==> files[i].block[ib] >= 0
    {
      ghost var fs0 := View();
      AllocateConserves(fs0, i, ib);
      if rp != wp {
        NextFree(fs0);
      }
      NextIsMod(rp, freeBlocks.Length);
      var oldVal := rp;
      rp := (oldVal + 1) % freeBlocks.Length;
      files := files[i := files[i].(block := files[i].block[ib := freeBlocks[oldVal]])];
      files := files[i := files[i].(nBlock := files[i].nBlock + 1)];
      assert View() == AllocateAt(fs0, i, ib);
    }

    /** myfs_get_lba. */
    method Lba(i: nat, offset: nat, write: bool) returns (lba: Option<nat>)
      requires Valid() && i < |files| && files[i].name != "" && offset / BLOCK_SIZE < |files[i].block|
      modifies this`rp, this`files
      ensures (View(), lba) == GetLba(old(View()), i, offset, write)
      ensures var ib, f := offset / BLOCK_SIZE, old(files[i]);
              && (Valid() <==> (write && f.block[ib] == INACTIVE ==> old(rp != wp) && ib == f.nBlock))
              && (write && Valid() ==> lba.Some?)
      ensures lba.Some? ==> lba.value == files[i].block[offset / 2097152] * 4096 + offset % 2097152 / 512
    {
      hide Conserved;
      var ib := offset / BLOCK_SIZE;
      if write {
        if files[i].block[ib] == INACTIVE {
          Allocate(i, ib);
        } else {
          EntryActive(View(), i, ib);
        }
      }
      var b := files[i].block[ib];
      if b < 0 {
        return None;
      }
      lba := Some((b * BLOCK_SIZE + offset % BLOCK_SIZE) / SECTOR);
    }
  }
}
