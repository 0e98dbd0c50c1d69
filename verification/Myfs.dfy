/**
 * The file system's block allocator and name table, as values: a circular list of free blocks and a table
 * of files. The sizes N (ring), and those of the tables, are whatever the sequences' lengths are.
 */
module Myfs {
  import opened Modular
  import opened Wrappers
  import opened Sizes

  const INACTIVE: int := -1
  const BLOCK_SIZE: nat := TWO_MB

  /** One file record, with the two flag bits and the reference count kept beside it in memory. */
  datatype File = File(name: string, block: seq<int>, nBlock: nat, isOpen: bool, unlinked: bool, refs: nat)

  datatype FS = FS(free: seq<int>, rp: nat, wp: nat, files: seq<File>)

  // ---- the free ring --------------------------------------------------------------------

  /** Position i places after `rp`. */
  function RingIndex(rp: nat, i: nat, n: nat): (j: nat)
    requires rp < n && i < n
    ensures j < n
  {
    if rp + i < n then rp + i else rp + i - n
  }

  function FreeCount(rp: nat, wp: nat, n: nat): (c: nat)
    requires rp < n && wp < n
    ensures c < n
  {
    if rp <= wp then wp - rp else wp - rp + n
  }

  /** The free blocks, oldest first: the ring segment from rp up to wp. */
  function FreeList(free: seq<int>, rp: nat, wp: nat): (s: seq<int>)
    requires rp < |free| && wp < |free|
    ensures |s| == FreeCount(rp, wp, |free|)
  {
    seq(FreeCount(rp, wp, |free|), i requires 0 <= i < FreeCount(rp, wp, |free|) => free[RingIndex(rp, i, |free|)])
  }

  lemma PushFree(free: seq<int>, rp: nat, wp: nat, x: int)
    requires rp < |free| && wp < |free| && FreeCount(rp, wp, |free|) + 1 < |free|
    ensures FreeList(free[wp := x], rp, Next(wp, |free|)) == FreeList(free, rp, wp) + [x]
  {
  }

  lemma PopFree(free: seq<int>, rp: nat, wp: nat)
    requires rp < |free| && wp < |free| && FreeCount(rp, wp, |free|) > 0
    ensures FreeList(free, rp, wp) == [free[rp]] + FreeList(free, Next(rp, |free|), wp)
  {
  }

  // ---- block tables ---------------------------------------------------------------------

  /** A named file's table is a dense prefix of length nBlock; a slot without a name holds no block. */
  ghost predicate FileOk(f: File) {
    && (f.name != "" ==> f.nBlock <= |f.block|)
    && (forall j {:trigger f.block[j]} :: HeldBy(f) <= j < |f.block| ==> f.block[j] == INACTIVE)
  }

  function HeldBy(f: File): nat {
    if f.name == "" then 0 else f.nBlock
  }

  /** The blocks a file holds. n_block of a slot without a name means nothing. */
  function Table(f: File): seq<int> {
    if HeldBy(f) <= |f.block| then f.block[..HeldBy(f)] else f.block
  }

  /** How often s holds x. */
  function Count(s: seq<int>, x: int): nat {
    if s == [] then 0 else Count(s[..|s| - 1], x) + if s[|s| - 1] == x then 1 else 0
  }

  lemma CountSnoc(s: seq<int>, y: int, x: int)
    ensures Count(s + [y], x) == Count(s, x) + if x == y then 1 else 0
  {
    assert (s + [y])[..|s|] == s;
  }

  lemma {:induction false} CountConcat(s: seq<int>, t: seq<int>, x: int)
    ensures Count(s + t, x) == Count(s, x) + Count(t, x)
  {
    if t == [] {
      assert s + t == s;
    } else {
      var n := |t| - 1;
      assert s + t == s + t[..n] + [t[n]];
      CountSnoc(s + t[..n], t[n], x);
      CountConcat(s, t[..n], x);
    }
  }

  lemma {:induction false} InSeq(s: seq<int>, a: nat)
    requires a < |s|
    ensures Count(s, s[a]) >= 1
  {
    if a < |s| - 1 {
      InSeq(s[..|s| - 1], a);
    }
  }

  lemma {:induction false} TwiceInSeq(s: seq<int>, a: nat, b: nat)
    requires a < b < |s| && s[a] == s[b]
    ensures Count(s, s[a]) >= 2
  {
    if b < |s| - 1 {
      TwiceInSeq(s[..|s| - 1], a, b);
    } else {
      InSeq(s[..|s| - 1], a);
    }
  }

  lemma {:induction false} CountIdentity(s: seq<int>, x: int)
    requires forall i :: 0 <= i < |s| ==> s[i] == i
    ensures Count(s, x) == if 0 <= x < |s| then 1 else 0
  {
    if s != [] {
      CountIdentity(s[..|s| - 1], x);
    }
  }

  /** How often the tables of the first k files hold block x. */
  function Owned(files: seq<File>, k: nat, x: int): nat
    requires k <= |files|
  {
    if k == 0 then 0 else Owned(files, k - 1, x) + Count(Table(files[k - 1]), x)
  }

  /**
   * The free ring and the tables together hold each of the blocks 0 to N - 2 exactly once, and nothing
   * else; free and used blocks add up to N - 1.
   */
  ghost predicate Conserved(fs: FS) {
    && fs.rp < |fs.free| && fs.wp < |fs.free|
    && (forall i {:trigger fs.files[i]} :: 0 <= i < |fs.files| ==> FileOk(fs.files[i]))
    && (forall x {:trigger Owned(fs.files, |fs.files|, x)} ::
          Count(FreeList(fs.free, fs.rp, fs.wp), x) + Owned(fs.files, |fs.files|, x) == if 0 <= x < |fs.free| - 1 then 1 else 0)
    && FreeCount(fs.rp, fs.wp, |fs.free|) + SumBlocks(fs.files, |fs.files|) == |fs.free| - 1
  }

  lemma {:induction false} OwnedUpdate(files: seq<File>, i: nat, f: File, k: nat, x: int)
    requires i < |files| && k <= |files|
    ensures Owned(files[i := f], k, x) + (if i < k then Count(Table(files[i]), x) else 0)
         == Owned(files, k, x) + (if i < k then Count(Table(f), x) else 0)
  {
    if k > 0 {
      OwnedUpdate(files, i, f, k - 1, x);
    }
  }

  lemma {:induction false} SumUpdate(files: seq<File>, i: nat, f: File, k: nat)
    requires i < |files| && k <= |files|
    ensures SumBlocks(files[i := f], k) + (if i < k then HeldBy(files[i]) else 0)
         == SumBlocks(files, k) + (if i < k then HeldBy(f) else 0)
  {
    if k > 0 {
      SumUpdate(files, i, f, k - 1);
    }
  }

  lemma {:induction false} OwnedAtLeast(files: seq<File>, i: nat, x: int, k: nat)
    requires i < k <= |files|
    ensures Count(Table(files[i]), x) <= Owned(files, k, x)
  {
    assert Owned(files, k, x) == Owned(files, k - 1, x) + Count(Table(files[k - 1]), x);
    if i < k - 1 {
      OwnedAtLeast(files, i, x, k - 1);
    }
  }

  /** A block in two different tables would be counted twice. */
  lemma {:induction false} OwnedTwice(files: seq<File>, i: nat, j: nat, x: int, k: nat)
    requires i < j < k <= |files|
    ensures Count(Table(files[i]), x) + Count(Table(files[j]), x) <= Owned(files, k, x)
  {
    assert Owned(files, k, x) == Owned(files, k - 1, x) + Count(Table(files[k - 1]), x);
    if j < k - 1 {
      OwnedTwice(files, i, j, x, k - 1);
    } else {
      OwnedAtLeast(files, i, x, k - 1);
    }
  }

  /** The sum of n_block over the named ones of the first k files. */
  function SumBlocks(files: seq<File>, k: nat): nat
    requires k <= |files|
  {
    if k == 0 then 0 else SumBlocks(files, k - 1) + HeldBy(files[k - 1])
  }

  lemma {:induction false} SumAtLeast(files: seq<File>, i: nat, k: nat)
    requires i < k <= |files|
    ensures HeldBy(files[i]) <= SumBlocks(files, k)
  {
    if i < k - 1 {
      SumAtLeast(files, i, k - 1);
    }
  }

  /** Different table entries, of the same or of different files, never name the same block. */
  lemma TablesDisjoint(fs: FS, i: nat, a: nat, j: nat, b: nat)
    requires Conserved(fs) && i < |fs.files| && j < |fs.files|
    requires a < HeldBy(fs.files[i]) && b < HeldBy(fs.files[j]) && (i, a) != (j, b)
    ensures a < |fs.files[i].block| && b < |fs.files[j].block|
    ensures 0 <= fs.files[i].block[a] < |fs.free| - 1
    ensures fs.files[i].block[a] != fs.files[j].block[b]
  {
    assert FileOk(fs.files[i]) && FileOk(fs.files[j]);
    var s, t := Table(fs.files[i]), Table(fs.files[j]);
    var x := s[a];
    InSeq(s, a);
    assert Owned(fs.files, |fs.files|, x) <= 1;
    OwnedAtLeast(fs.files, i, x, |fs.files|);
    if t[b] == x {
      InSeq(t, b);
      if i == j {
        TwiceInSeq(s, if a < b then a else b, if a < b then b else a);
      } else if i < j {
        OwnedTwice(fs.files, i, j, x, |fs.files|);
      } else {
        OwnedTwice(fs.files, j, i, x, |fs.files|);
      }
    }
  }

  // ---- allocation and offset translation ------------------------------------------------

  /** A superblock just initialised: n_block is not written. */
  ghost predicate IsInit(fs: FS) {
    && |fs.free| > 0 && fs.rp == 0 && fs.wp == |fs.free| - 1
    && (forall i :: 0 <= i < |fs.free| - 1 ==> fs.free[i] == i)
    && (forall i {:trigger fs.files[i]} :: 0 <= i < |fs.files| ==>
          fs.files[i].name == "" && forall j :: 0 <= j < |fs.files[i].block| ==> fs.files[i].block[j] == INACTIVE)
  }

  lemma InitConserved(fs: FS)
    requires IsInit(fs)
    ensures Conserved(fs)
  {
    var n := |fs.free| - 1;
    NothingOwned(fs.files, |fs.files|);
    forall x ensures Count(FreeList(fs.free, 0, n), x) == if 0 <= x < n then 1 else 0 {
      CountIdentity(FreeList(fs.free, 0, n), x);
    }
  }

  lemma {:induction false} NothingOwned(files: seq<File>, k: nat)
    requires k <= |files| && forall i :: 0 <= i < |files| ==> files[i].name == ""
    ensures SumBlocks(files, k) == 0 && forall x :: Owned(files, k, x) == 0
  {
    if k > 0 {
      NothingOwned(files, k - 1);
    }
  }

  /** The allocating branch of myfs_get_lba, as it is: no check that the ring holds a block. */
  function AllocateAt(fs: FS, i: nat, ib: nat): FS
    requires fs.rp < |fs.free| && i < |fs.files| && ib < |fs.files[i].block|
  {
    var f := fs.files[i];
    fs.(rp := Next(fs.rp, |fs.free|),
        files := fs.files[i := f.(block := f.block[ib := fs.free[fs.rp]], nBlock := f.nBlock + 1)])
  }

  /**
   * Allocation keeps the blocks conserved exactly when the ring is not empty and the write leaves no hole:
   * the entry allocated is the one right after the table's end.
   */
  lemma AllocateConserves(fs: FS, i: nat, ib: nat)
    requires Conserved(fs) && i < |fs.files| && fs.files[i].name != ""
    requires ib < |fs.files[i].block| && fs.files[i].block[ib] == INACTIVE
    ensures Conserved(AllocateAt(fs, i, ib)) <==>
              FreeCount(fs.rp, fs.wp, |fs.free|) > 0 && ib == fs.files[i].nBlock
  {
    var fs' := AllocateAt(fs, i, ib);
    SumUpdate(fs.files, i, fs'.files[i], |fs.files|);
    if FreeCount(fs.rp, fs.wp, |fs.free|) > 0 {
      NextFree(fs);
      NotInTable(fs, i, ib);
      if ib == fs.files[i].nBlock {
        AllocateKeeps(fs, i);
      } else {
        assert fs'.files[i].block[ib] != INACTIVE;
        assert !FileOk(fs'.files[i]);
      }
    }
  }

  /** The block an allocation takes is a block, and no file holds it. */
  lemma NextFree(fs: FS)
    requires Conserved(fs) && FreeCount(fs.rp, fs.wp, |fs.free|) > 0
    ensures 0 <= fs.free[fs.rp] < |fs.free| - 1
    ensures forall j, b :: 0 <= j < |fs.files| && 0 <= b < |Table(fs.files[j])| ==> Table(fs.files[j])[b] != fs.free[fs.rp]
  {
    var x := fs.free[fs.rp];
    PopFree(fs.free, fs.rp, fs.wp);
    InSeq(FreeList(fs.free, fs.rp, fs.wp), 0);
    assert Owned(fs.files, |fs.files|, x) == 0;
    forall j, b | 0 <= j < |fs.files| && 0 <= b < |Table(fs.files[j])| ensures Table(fs.files[j])[b] != x {
      OwnedAtLeast(fs.files, j, x, |fs.files|);
      if Table(fs.files[j])[b] == x {
        InSeq(Table(fs.files[j]), b);
      }
    }
  }

  /** An entry that is not inactive holds a block number. */
  lemma EntryActive(fs: FS, i: nat, ib: nat)
    requires Conserved(fs) && i < |fs.files| && ib < |fs.files[i].block| && fs.files[i].block[ib] != INACTIVE
    ensures ib < HeldBy(fs.files[i]) && 0 <= fs.files[i].block[ib] < |fs.free| - 1
  {
    assert FileOk(fs.files[i]);
    InSeq(Table(fs.files[i]), ib);
    OwnedAtLeast(fs.files, i, fs.files[i].block[ib], |fs.files|);
  }

  lemma AllocateKeeps(fs: FS, i: nat)
    requires Conserved(fs) && i < |fs.files| && fs.files[i].name != ""
    requires FreeCount(fs.rp, fs.wp, |fs.free|) > 0 && fs.files[i].nBlock < |fs.files[i].block|
    ensures Conserved(AllocateAt(fs, i, fs.files[i].nBlock))
  {
    var f, k := fs.files[i], |fs.files|;
    var fs' := AllocateAt(fs, i, f.nBlock);
    var x0, rest := fs.free[fs.rp], FreeList(fs.free, fs'.rp, fs.wp);
    assert FileOk(f);
    SumUpdate(fs.files, i, fs'.files[i], k);
    PopFree(fs.free, fs.rp, fs.wp);
    assert Table(fs'.files[i]) == Table(f) + [x0];
    forall x ensures Count(rest, x) + Owned(fs'.files, k, x) == if 0 <= x < |fs.free| - 1 then 1 else 0 {
      OwnedUpdate(fs.files, i, fs'.files[i], k, x);
      CountSnoc(Table(f), x0, x);
      CountConcat([x0], rest, x);
      CountSnoc([], x0, x);
      assert [] + [x0] == [x0];
      assert Owned(fs.files, k, x) >= 0;
    }
  }

  /** An inactive entry lies beyond the table. */
  lemma NotInTable(fs: FS, i: nat, ib: nat)
    requires Conserved(fs) && i < |fs.files| && ib < |fs.files[i].block| && fs.files[i].block[ib] == INACTIVE
    ensures HeldBy(fs.files[i]) <= ib
  {
    assert FileOk(fs.files[i]);
    if ib < HeldBy(fs.files[i]) {
      InSeq(Table(fs.files[i]), ib);
      OwnedAtLeast(fs.files, i, INACTIVE, |fs.files|);
    }
  }

  /** The sector of a byte at `offset` of a file, given the block that holds it. */
  function BlockLba(block: nat, offset: nat): nat {
    (block * BLOCK_SIZE + offset % BLOCK_SIZE) / SECTOR
  }

  /** myfs_get_lba: a write to an inactive entry allocates; what is still inactive then fails an assertion. */
  function GetLba(fs: FS, i: nat, offset: nat, write: bool): (FS, Option<nat>)
    requires fs.rp < |fs.free| && i < |fs.files| && offset / BLOCK_SIZE < |fs.files[i].block|
  {
    var ib := offset / BLOCK_SIZE;
    var fs' := if write && fs.files[i].block[ib] == INACTIVE then AllocateAt(fs, i, ib) else fs;
    var b := fs'.files[i].block[ib];
    (fs', if b < 0 then None else Some(BlockLba(b, offset)))
  }

  // ---- unlink ---------------------------------------------------------------------------

  /** The record __myfs_unlink leaves behind. */
  function Erased(f: File): File {
    File("", seq(|f.block|, _ => INACTIVE), 0, false, false, 0)
  }

  /** __myfs_unlink(i): the file's blocks go to the end of the free list, in order; nothing else changes. */
  ghost predicate Unlinks(fs: FS, i: nat, fs': FS)
    requires fs.rp < |fs.free| && fs.wp < |fs.free| && i < |fs.files|
  {
    && fs'.rp == fs.rp && |fs'.free| == |fs.free| && fs'.wp < |fs'.free|
    && fs'.files == fs.files[i := Erased(fs.files[i])]
    && FreeList(fs'.free, fs'.rp, fs'.wp) == FreeList(fs.free, fs.rp, fs.wp) + Table(fs.files[i])
  }

  lemma UnlinkConserves(fs: FS, i: nat, fs': FS)
    requires Conserved(fs) && i < |fs.files| && Unlinks(fs, i, fs')
    ensures Conserved(fs')
  {
    var k := |fs.files|;
    var old0, f := FreeList(fs.free, fs.rp, fs.wp), fs.files[i];
    assert FileOk(f);
    SumUpdate(fs.files, i, Erased(f), k);
    forall x ensures Count(FreeList(fs'.free, fs'.rp, fs'.wp), x) + Owned(fs'.files, k, x) == if 0 <= x < |fs.free| - 1 then 1 else 0 {
      OwnedUpdate(fs.files, i, Erased(f), k, x);
      CountConcat(old0, Table(f), x);
      assert Owned(fs.files, k, x) >= 0;
    }
  }

  /** Flags and reference counts are no part of the accounting. */
  lemma MarkConserves(fs: FS, i: nat, f: File)
    requires Conserved(fs) && i < |fs.files|
    requires f.name == fs.files[i].name && f.block == fs.files[i].block && f.nBlock == fs.files[i].nBlock
    ensures Conserved(fs.(files := fs.files[i := f]))
  {
    assert FileOk(fs.files[i]);
    assert Table(f) == Table(fs.files[i]);
    SumUpdate(fs.files, i, f, |fs.files|);
    var fs' := fs.(files := fs.files[i := f]);
    forall x ensures Owned(fs'.files, |fs.files|, x) == Owned(fs.files, |fs.files|, x) {
      OwnedUpdate(fs.files, i, f, |fs.files|, x);
    }
    assert FileOk(f);
  }

  /** There is room for every block of a file: the unchecked pushes of an unlink never overfill the ring. */
  lemma UnlinkRoom(fs: FS, i: nat)
    requires Conserved(fs) && i < |fs.files|
    ensures FreeCount(fs.rp, fs.wp, |fs.free|) + |Table(fs.files[i])| < |fs.free|
  {
    assert FileOk(fs.files[i]);
    SumAtLeast(fs.files, i, |fs.files|);
  }

  // ---- usage ----------------------------------------------------------------------------

  /** myfs_used_blocks. */
  function UsedBlocks(rp: nat, wp: nat, n: nat): int {
    if rp < wp then rp + n - wp - 1 else rp - wp - 1
  }

  /** The count is right except when the ring is empty, where it is -1. */
  lemma UsedBlocksExact(fs: FS)
    requires Conserved(fs)
    ensures UsedBlocks(fs.rp, fs.wp, |fs.free|) == SumBlocks(fs.files, |fs.files|) <==> fs.rp != fs.wp
    ensures fs.rp == fs.wp ==> UsedBlocks(fs.rp, fs.wp, |fs.free|) == -1 && SumBlocks(fs.files, |fs.files|) == |fs.free| - 1
  {
  }

  // ---- names ----------------------------------------------------------------------------

  /** strncmp(filename, name, strlen(filename)) == 0: a prefix test. */
  predicate Matches(filename: string, f: File) {
    filename <= f.name
  }

  /** The first file from i on that `filename` is a prefix of; the table's length if there is none. */
  function FirstMatch(files: seq<File>, filename: string, i: nat): (m: nat)
    requires i <= |files|
    ensures i <= m <= |files|
    ensures m < |files| ==> Matches(filename, files[m])
    ensures forall j :: i <= j < m ==> !Matches(filename, files[j])
    decreases |files| - i
  {
    if i == |files| || Matches(filename, files[i]) then i else FirstMatch(files, filename, i + 1)
  }

  /** The first slot from i on without a name. */
  function FirstEmpty(files: seq<File>, i: nat): (e: nat)
    requires i <= |files|
    ensures i <= e <= |files|
    ensures e < |files| ==> files[e].name == ""
    ensures forall j :: i <= j < e ==> files[j].name != ""
    decreases |files| - i
  {
    if i == |files| || files[i].name == "" then i else FirstEmpty(files, i + 1)
  }

  /** The slot myfs_open returns; with no match and no free slot the C code indexes file[-1]. */
  function OpenSlot(files: seq<File>, filename: string): nat {
    var m := FirstMatch(files, filename, 0);
    if m < |files| then m else FirstEmpty(files, 0)
  }

  /** The file table after myfs_open. */
  function OpenFiles(files: seq<File>, filename: string): seq<File>
    requires OpenSlot(files, filename) < |files|
  {
    var i := OpenSlot(files, filename);
    if FirstMatch(files, filename, 0) < |files| then files[i := files[i].(isOpen := true, unlinked := false)]
    else files[i := files[i].(name := filename, nBlock := 0, isOpen := true, unlinked := false)]
  }

  lemma OpenConserves(fs: FS, filename: string)
    requires Conserved(fs) && filename != "" && OpenSlot(fs.files, filename) < |fs.files|
    ensures Conserved(fs.(files := OpenFiles(fs.files, filename)))
  {
    var i := OpenSlot(fs.files, filename);
    var fs' := fs.(files := OpenFiles(fs.files, filename));
    assert FileOk(fs.files[i]);
    assert Table(fs'.files[i]) == Table(fs.files[i]);
    SumUpdate(fs.files, i, fs'.files[i], |fs.files|);
    forall x ensures Owned(fs'.files, |fs.files|, x) == Owned(fs.files, |fs.files|, x) {
      OwnedUpdate(fs.files, i, fs'.files[i], |fs.files|, x);
    }
  }

  /** The named files are exactly the map's entries. */
  ghost predicate Directory(files: seq<File>, m: map<string, nat>) {
    && (forall i {:trigger files[i]} :: 0 <= i < |files| && files[i].name != "" ==>
          files[i].name in m && m[files[i].name] == i)
    && (forall s :: s in m ==> s != "" && m[s] < |files| && files[m[s]].name == s)
  }

  /** `s` properly extends `filename`. */
  predicate Extends(s: string, filename: string) {
    filename <= s && s != filename
  }

  /**
   * myfs_open(filename) is the exact-name operation (the slot returned carries that very name, a new entry
   * being made only for an absent name) exactly when no stored name that properly extends `filename` stands
   * before the file of that name, or stands anywhere if there is no such file.
   */
  lemma OpenExact(files: seq<File>, m: map<string, nat>, filename: string)
    requires Directory(files, m) && filename != "" && OpenSlot(files, filename) < |files|
    ensures var i, files' := OpenSlot(files, filename), OpenFiles(files, filename);
            (files'[i].name == filename && Directory(files', m[filename := i]))
            <==> (forall s :: s in m && Extends(s, filename) ==> filename in m && m[filename] < m[s])
  {
    var i, files' := OpenSlot(files, filename), OpenFiles(files, filename);
    var first := FirstMatch(files, filename, 0);
    if first < |files| {
      var s := files[first].name;
      assert s in m && m[s] == first;
      if s == filename {
        forall t | t in m && Extends(t, filename) ensures m[filename] < m[t] {
          assert Matches(filename, files[m[t]]);
        }
      } else {
        assert Extends(s, filename);
        if filename in m {
          assert Matches(filename, files[m[filename]]);
        }
      }
    } else {
      forall t | t in m ensures !(filename <= t) {
        assert !Matches(filename, files[m[t]]);
      }
    }
  }

  /** What __myfs_try_unlink makes of a record: erased at once, or marked while references are held. */
  function TryErase(f: File): File {
    if f.refs == 0 then Erased(f) else f.(unlinked := true)
  }

  /** The file table after myfs_unlink(filename). */
  function UnlinkFiles(files: seq<File>, filename: string): (files': seq<File>)
    ensures |files'| == |files|
  {
    seq(|files|, i requires 0 <= i < |files| => if Matches(filename, files[i]) then TryErase(files[i]) else files[i])
  }

  /** myfs_unlink(filename) removes just that name exactly when no stored name properly extends it. */
  lemma UnlinkExact(files: seq<File>, m: map<string, nat>, filename: string)
    requires Directory(files, m) && filename != ""
    requires forall i :: 0 <= i < |files| && Matches(filename, files[i]) ==> files[i].refs == 0
    ensures Directory(UnlinkFiles(files, filename), m - {filename})
            <==> (forall s :: s in m ==> !Extends(s, filename))
  {
    var files' := UnlinkFiles(files, filename);
    forall s | s in m && Extends(s, filename) ensures !Directory(files', m - {filename}) {
      assert Matches(filename, files[m[s]]);
      assert files'[m[s]].name == "";
      assert s in m - {filename};
    }
    if forall s :: s in m ==> !Extends(s, filename) {
      forall i | 0 <= i < |files| && files[i].name != ""
        ensures files'[i] == if files[i].name == filename then Erased(files[i]) else files[i] {
      }
      assert Directory(files', m - {filename});
    }
  }
}
