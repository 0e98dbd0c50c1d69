/** read_impl and write_impl: a byte range cut into requests, issued in windows and awaited. */
module HookIo {
  import opened Modular
  import opened Sizes

  const INT_MAX: nat := 0x7fff_ffff

  /** A request: `off` bytes into the caller's buffer, whole sectors on the drive, `len` bytes copied. */
  datatype Chunk = Chunk(off: nat, nblk: nat, len: nat)

  /** The end-of-file clip of read_impl; the result is negative when `pos` lies beyond the end. */
  function Clip(pos: nat, len: nat, fileSize: nat): int {
    if pos + len > fileSize then fileSize - pos else len
  }

  /** The request size of write_impl. */
  function WriteSize(pos: nat, len: int): nat {
    if len % BLKSZ != 0 || pos % BLKSZ != 0 then SECTOR else BLKSZ
  }

  /** The request size of read_impl: a range inside one 4 KiB page goes out as one request. */
  function ReadSize(pos: nat, len: int): int {
    if pos % BLKSZ + len <= BLKSZ then len else WriteSize(pos, len)
  }

  /** DIV_CEIL(size, 512). */
  function Sectors(size: nat): nat {
    (size + SECTOR - 1) / SECTOR
  }

  function Min(x: int, y: int): int {
    if x < y then x else y
  }

  function ChunkAt(j: nat, len: nat, size: nat): Chunk
    requires j < len
  {
    Chunk(j, Sectors(size), Min(size, len - j))
  }

  /** The requests for the bytes from j on. */
  function Chunks(j: nat, len: int, size: int): (cs: seq<Chunk>)
    requires len > 0 ==> size > 0
    decreases len - j
  {
    if j >= len then [] else [ChunkAt(j, len, size)] + Chunks(j + size, len, size)
  }

  /** The chunks follow one another without gap or overlap from `lo` to exactly `hi`. */
  predicate Tiles(cs: seq<Chunk>, lo: int, hi: int) {
    if cs == [] then lo == hi
    else cs[0].off == lo && cs[0].len > 0 && Tiles(cs[1..], lo + cs[0].len, hi)
  }

  /** A chunk of a range at file position `pos` is a request the driver accepts, inside one 4 KiB page. */
  predicate Fits(c: Chunk, pos: nat) {
    && (pos + c.off) % SECTOR == 0
    && 1 <= c.nblk <= 8
    && SECTOR * (c.nblk - 1) < c.len <= SECTOR * c.nblk
    && (pos + c.off) % BLKSZ + SECTOR * c.nblk <= BLKSZ
  }

  /** A chunk size that keeps every chunk inside one page. */
  predicate GoodSize(pos: nat, len: int, size: int) {
    && size > 0
    && ( || size == SECTOR
         || (size == BLKSZ && pos % BLKSZ == 0 && len % BLKSZ == 0)
         || (size == len && pos % BLKSZ + len <= BLKSZ))
  }

  lemma SizesGood(pos: nat, len: int)
    requires len > 0
    ensures GoodSize(pos, len, ReadSize(pos, len)) && GoodSize(pos, len, WriteSize(pos, len))
  {
  }

  /** The offsets at which requests of this size start. */
  predicate OnGrid(j: nat, size: int) {
    j == 0 || (size == SECTOR && j % SECTOR == 0) || (size == BLKSZ && j % BLKSZ == 0)
  }

  lemma SectorsInPage(x: nat) returns (u: nat)
    requires x % SECTOR == 0
    ensures u < 8 && x % BLKSZ == SECTOR * u
  {
    var m := x / SECTOR;
    u := m % 8;
    DivModUnique(x, BLKSZ, m / 8, SECTOR * u);
  }

  lemma ChunkFits(pos: nat, len: int, size: int, j: nat)
    requires pos % SECTOR == 0 && GoodSize(pos, len, size) && j < len && OnGrid(j, size)
    ensures Fits(ChunkAt(j, len, size), pos)
    ensures j + size < len ==> OnGrid(j + size, size)
  {
    var u := SectorsInPage(pos);
    if size == SECTOR {
      DivModUnique(pos + j, SECTOR, pos / SECTOR + j / SECTOR, 0);
      var v := SectorsInPage(pos + j);
      DivModUnique(j + SECTOR, SECTOR, j / SECTOR + 1, 0);
    } else if j > 0 || (size == BLKSZ && pos % BLKSZ == 0 && len % BLKSZ == 0) {
      PageChunk(pos, len, j);
    }
  }

  lemma PageChunk(pos: nat, len: int, j: nat)
    requires pos % SECTOR == 0 && GoodSize(pos, len, BLKSZ) && j < len && j % BLKSZ == 0 && (j == 0 ==> pos % BLKSZ == 0 == len % BLKSZ)
    ensures Fits(ChunkAt(j, len, BLKSZ), pos)
    ensures (j + BLKSZ) % BLKSZ == 0
  {
    var a, b, c := pos / BLKSZ, j / BLKSZ, len / BLKSZ;
    assert len % BLKSZ == 0 && pos % BLKSZ == 0;
    DivModUnique(pos + j, BLKSZ, a + b, 0);
    DivModUnique(pos + j, SECTOR, 8 * (a + b), 0);
    DivModUnique(j + BLKSZ, BLKSZ, b + 1, 0);
    assert c > b;
  }

  /** The chunks are an exact tiling ... */
  lemma {:induction false} ChunksTile(len: int, size: int, j: nat)
    requires size > 0 && j < len
    ensures Tiles(Chunks(j, len, size), j, len)
    decreases len - j
  {
    var c := ChunkAt(j, len, size);
    assert ([c] + Chunks(j + size, len, size))[1..] == Chunks(j + size, len, size);
    if j + size < len {
      ChunksTile(len, size, j + size);
    }
  }

  /** ... and each lies inside one page. */
  lemma {:induction false} ChunksFit(pos: nat, len: int, size: int, j: nat)
    requires pos % SECTOR == 0 && GoodSize(pos, len, size) && j < len && OnGrid(j, size)
    ensures forall i :: 0 <= i < |Chunks(j, len, size)| ==> Fits(Chunks(j, len, size)[i], pos)
    decreases len - j
  {
    ChunkFits(pos, len, size, j);
    if j + size < len {
      ChunksFit(pos, len, size, j + size);
    }
  }

  function Upto(n: nat): (s: seq<nat>)
    ensures |s| == n
  {
    seq(n, i => i)
  }

  /** The requests of a range, if there is anything to do. */
  function Plan(len: int, size: int): seq<Chunk>
    requires len > 0 ==> size > 0
  {
    if len > 0 then Chunks(0, len, size) else []
  }

  /** The requests issued so far, with the ones still to come, are the plan. */
  ghost predicate OnPlan(issued: seq<Chunk>, j: nat, len: int, size: int) {
    len > 0 && size > 0 && issued + Chunks(j, len, size) == Plan(len, size)
  }

  lemma IssueNext(issued: seq<Chunk>, j: nat, len: int, size: int)
    requires OnPlan(issued, j, len, size) && j < len
    ensures OnPlan(issued + [ChunkAt(j, len, size)], j + size, len, size)
  {
    var c, rest := ChunkAt(j, len, size), Chunks(j + size, len, size);
    assert issued + ([c] + rest) == issued + [c] + rest;
  }

  lemma PlanDone(issued: seq<Chunk>, j: nat, len: int, size: int)
    requires OnPlan(issued, j, len, size) && j >= len
    ensures issued == Plan(len, size)
  {
    assert issued + [] == issued;
  }

  /** The second half of a window: each of its requests is polled until it is complete, which is one step here. */
  method Await(rid: array<nat>, rq: nat, awaited: seq<nat>) returns (awaited': seq<nat>)
    requires rq <= rid.Length && awaited == Upto(|awaited|)
    requires forall i :: 0 <= i < rq ==> rid[i] == |awaited| + i
    ensures awaited' == Upto(|awaited| + rq)
  {
    awaited' := awaited;
    var k := 0;
    while k < rq
      invariant k <= rq && awaited' == Upto(|awaited| + k)
    {
      awaited' := awaited' + [rid[k]];
      k := k + 1;
    }
  }

  /** The windows of read_impl. */
  method ReadWindows(len: int, size: int, deg: nat) returns (issued: seq<Chunk>, awaited: seq<nat>)
    requires len > 0 ==> size > 0
    requires deg > 0 && len + size <= INT_MAX
    ensures issued == Plan(len, size)
    ensures awaited == Upto(|issued|)
  {
    var rid := new nat[deg];
    var j := 0;
    issued, awaited := [], [];
    while j < len
      invariant 0 <= j && (len > 0 ==> j < len + size && OnPlan(issued, j, len, size)) && (len <= 0 ==> issued == [])
      invariant awaited == Upto(|issued|)
    {
      ghost var j0: nat := j;
      var rq := 0;
      while rq < deg
        invariant rq <= deg && 0 <= j0 <= j < len + size && (rq > 0 ==> j > j0)
        invariant |issued| == |awaited| + rq && OnPlan(issued, j, len, size)
        invariant forall i :: 0 <= i < rq ==> rid[i] == |awaited| + i
      {
        if j >= len {
          break;
        }
        IssueNext(issued, j, len, size);
        rid[rq] := |issued|;
        issued := issued + [ChunkAt(j, len, size)];
        j := j + size;
        rq := rq + 1;
      }
      awaited := Await(rid, rq, awaited);
    }
    if len > 0 {
      PlanDone(issued, j, len, size);
    }
  }

  /** The windows of write_impl: the window loop is left by `break` before its counter advances. */
  method WriteWindows(len: int, size: int, deg: nat) returns (issued: seq<Chunk>, awaited: seq<nat>)
    requires len > 0 ==> size > 0
    requires deg > 0 && len + size <= INT_MAX
    ensures issued == Plan(len, size)
    ensures awaited == Upto(if issued == [] then 0 else |issued| - 1)
  {
    var rid := new nat[deg];
    var j := 0;
    issued, awaited := [], [];
    while j < len
      invariant 0 <= j && (len > 0 ==> j < len + size && OnPlan(issued, j, len, size)) && (len <= 0 ==> issued == [])
      invariant j >= len > 0 ==> issued != []
      invariant awaited == Upto(if j < len || issued == [] then |issued| else |issued| - 1)
    {
      ghost var j0: nat := j;
      var rq := 0;
      while rq < deg
        invariant rq <= deg && 0 <= j0 <= j < len && (rq > 0 ==> j > j0)
        invariant |issued| == |awaited| + rq && OnPlan(issued, j, len, size)
        invariant forall i :: 0 <= i < rq ==> rid[i] == |awaited| + i
      {
        IssueNext(issued, j, len, size);
        rid[rq] := |issued|;
        issued := issued + [ChunkAt(j, len, size)];
        j := j + size;
        if j >= len {
          break;
        }
        rq := rq + 1;
      }
      awaited := Await(rid, rq, awaited);
    }
    if len > 0 {
      PlanDone(issued, j, len, size);
    }
  }

  /** The plan of a range at a sector boundary, with either request size, is an exact tiling of it. */
  lemma PlanTiles(pos: nat, len: int, size: int)
    requires pos % SECTOR == 0 && (len > 0 ==> GoodSize(pos, len, size))
    ensures Tiles(Plan(len, size), 0, if len > 0 then len else 0)
    ensures forall i :: 0 <= i < |Plan(len, size)| ==> Fits(Plan(len, size)[i], pos)
  {
    if len > 0 {
      ChunksTile(len, size, 0);
      ChunksFit(pos, len, size, 0);
    }
  }

  // ---- the plans, in numbers ------------------------------------------------------------

  /** x divided by n, rounded up. */
  function CeilDiv(x: nat, n: nat): nat
    requires n > 0
  {
    (x + n - 1) / n
  }

  /** The chunks are as many as fit, and all of the same number of sectors. */
  lemma {:induction false} ChunksCount(j: nat, len: nat, size: nat)
    requires size > 0 && j <= len + size - 1
    ensures |Chunks(j, len, size)| == CeilDiv(if j < len then len - j else 0, size)
    ensures forall i {:trigger Chunks(j, len, size)[i]} :: 0 <= i < |Chunks(j, len, size)| ==> Chunks(j, len, size)[i].nblk == Sectors(size)
    decreases len + size - j
  {
    if j < len {
      ChunksCount(j + size, len, size);
      if j + size <= len {
        DivModUnique(len - j + size - 1, size, (len - j - 1) / size + 1, (len - j - 1) % size);
      } else {
        DivModUnique(len - j + size - 1, size, 1, len - j - 1);
      }
    } else {
      DivModUnique(size - 1, size, 0, size - 1);
    }
  }

  /** Position x of the file is in one of the requests of a range at `pos`. */
  predicate Covered(cs: seq<Chunk>, pos: nat, x: int) {
    exists i {:trigger cs[i]} :: 0 <= i < |cs| && pos + cs[i].off <= x < pos + cs[i].off + cs[i].len
  }

  /** A tiling covers what lies between its ends. */
  lemma {:induction false} TilesCover(cs: seq<Chunk>, pos: nat, lo: int, hi: int, x: int)
    requires Tiles(cs, lo, hi)
    ensures Covered(cs, pos, x) <==> pos + lo <= x < pos + hi
  {
    if cs != [] {
      TilesCover(cs[1..], pos, lo + cs[0].len, hi, x);
      TilesUp(cs[1..], lo + cs[0].len, hi);
      if Covered(cs[1..], pos, x) {
        var i :| 0 <= i < |cs| - 1 && pos + cs[1..][i].off <= x < pos + cs[1..][i].off + cs[1..][i].len;
        assert cs[i + 1] == cs[1..][i];
      }
      if Covered(cs, pos, x) {
        var i :| 0 <= i < |cs| && pos + cs[i].off <= x < pos + cs[i].off + cs[i].len;
        if i > 0 {
          assert cs[1..][i - 1] == cs[i];
        }
      }
    }
  }

  lemma {:induction false} TilesUp(cs: seq<Chunk>, lo: int, hi: int)
    requires Tiles(cs, lo, hi)
    ensures lo <= hi
  {
    if cs != [] {
      TilesUp(cs[1..], lo + cs[0].len, hi);
    }
  }

  /** There are n requests, each of so many sectors. */
  predicate AllOf(cs: seq<Chunk>, n: nat, nblk: nat) {
    |cs| == n && forall i {:trigger cs[i]} :: 0 <= i < |cs| ==> cs[i].nblk == nblk
  }

  /**
   * Requests of whole pages for a range of whole pages, of single sectors otherwise: the request sizes of
   * write_impl, and of read_impl for a range that leaves its first page.
   */
  predicate PagesOrSectors(cs: seq<Chunk>, pos: nat, len: nat) {
    if pos % 4096 == 0 && len % 4096 == 0 then AllOf(cs, len / 4096, 8)
    else AllOf(cs, CeilDiv(len, 512), 1)
  }

  lemma PlanCounts(pos: nat, len: nat)
    ensures PagesOrSectors(Plan(len, WriteSize(pos, len)), pos, len)
  {
    var size := WriteSize(pos, len);
    if len > 0 {
      ChunksCount(0, len, size);
    }
    if size == BLKSZ {
      DivModUnique(len + 4095, 4096, len / 4096, 4095);
    } else if len == 0 {
      DivModUnique(511, 512, 0, 511);
    }
  }

  lemma ReadCounts(pos: nat, n: int)
    requires pos % SECTOR == 0
    ensures var cs := Plan(n, ReadSize(pos, n));
            if n <= 0 then cs == []
            else if pos % 4096 + n <= 4096 then cs == [Chunk(0, CeilDiv(n, 512), n)]
            else PagesOrSectors(cs, pos, n)
  {
    if n > 0 && pos % 4096 + n <= 4096 {
      assert Chunks(n, n, n) == [];
    } else if n > 0 {
      PlanCounts(pos, n);
    }
  }

  /**
   * `read_impl`: exactly the positions asked for that lie in the file are read, in requests of the sizes stated,
   * and every request issued was seen complete.
   */
  method ReadImpl(pos: nat, len0: nat, fileSize: nat, deg: nat) returns (issued: seq<Chunk>, awaited: seq<nat>)
    requires pos % SECTOR == 0 && deg > 0 && len0 + BLKSZ <= INT_MAX
    ensures forall x {:trigger Covered(issued, pos, x)} :: Covered(issued, pos, x) <==> pos <= x < pos + len0 && x < fileSize
    ensures var n := if pos + len0 <= fileSize then len0 else fileSize - pos;
            && Tiles(issued, 0, if n > 0 then n else 0)
            && if n <= 0 then issued == []
               else if pos % 4096 + n <= 4096 then issued == [Chunk(0, CeilDiv(n, 512), n)]
               else PagesOrSectors(issued, pos, n)
    ensures forall i :: 0 <= i < |issued| ==> Fits(issued[i], pos)
    ensures awaited == Upto(|issued|)
    ensures issued == ReadPlan(pos, len0, fileSize)
  {
    var len := Clip(pos, len0, fileSize);
    var blksz := ReadSize(pos, len);
    issued, awaited := ReadWindows(len, blksz, deg);
    if len > 0 {
      SizesGood(pos, len);
    }
    PlanTiles(pos, len, blksz);
    ReadCounts(pos, len);
    forall x ensures Covered(issued, pos, x) <==> pos <= x < pos + len0 && x < fileSize {
      TilesCover(issued, pos, 0, if len > 0 then len else 0, x);
    }
  }

  /**
   * `write_impl`: exactly the positions asked for are written, in requests of the sizes stated, and every
   * request issued but the very last was seen complete.
   */
  method WriteImpl(pos: nat, len: nat, deg: nat) returns (issued: seq<Chunk>, awaited: seq<nat>)
    requires pos % SECTOR == 0 && deg > 0 && len + BLKSZ <= INT_MAX
    ensures forall x {:trigger Covered(issued, pos, x)} :: Covered(issued, pos, x) <==> pos <= x < pos + len
    ensures Tiles(issued, 0, len) && PagesOrSectors(issued, pos, len)
    ensures forall i :: 0 <= i < |issued| ==> Fits(issued[i], pos)
    ensures awaited == Upto(if issued == [] then 0 else |issued| - 1)
    ensures issued == WritePlan(pos, len)
  {
    var blksz := WriteSize(pos, len);
    issued, awaited := WriteWindows(len, blksz, deg);
    if len > 0 {
      SizesGood(pos, len);
    }
    PlanTiles(pos, len, blksz);
    PlanCounts(pos, len);
    forall x ensures Covered(issued, pos, x) <==> pos <= x < pos + len {
      TilesCover(issued, pos, 0, len, x);
    }
  }

  function ReadPlan(pos: nat, len: nat, fileSize: nat): seq<Chunk> {
    var n := Clip(pos, len, fileSize);
    Plan(n, ReadSize(pos, n))
  }

  function WritePlan(pos: nat, len: nat): seq<Chunk> {
    Plan(len, WriteSize(pos, len))
  }
}
