/** Where a sector, a request and a bounce buffer are: the arithmetic of nvme.cc. */
module Addressing {
  import opened Modular
  import opened Sizes

  const RAID_FACTOR: nat := 8

  // ---- RAID-0 ---------------------------------------------------------------------------

  /** The drive a sector is on. */
  function Drive(lba: nat, nd: nat): nat
    requires nd > 0
  {
    lba / RAID_FACTOR % nd
  }

  /** The sector's address on that drive: CDW10 of the command. */
  function DriveLba(lba: nat, nd: nat): nat
    requires nd > 0
  {
    lba / RAID_FACTOR / nd * RAID_FACTOR + lba % RAID_FACTOR
  }

  /** The sector a drive address stands for. */
  function GlobalLba(did: nat, dlba: nat, nd: nat): nat {
    (dlba / RAID_FACTOR * nd + did) * RAID_FACTOR + dlba % RAID_FACTOR
  }

  /** RAID-0 addressing is a bijection between sectors and (drive, drive address) pairs: one direction... */
  lemma RaidInjective(lba: nat, nd: nat)
    requires nd > 0
    ensures Drive(lba, nd) < nd
    ensures lba == (DriveLba(lba, nd) / 8 * nd + Drive(lba, nd)) * 8 + DriveLba(lba, nd) % 8
    ensures GlobalLba(Drive(lba, nd), DriveLba(lba, nd), nd) == lba
  {
    var stripe, off := lba / RAID_FACTOR, lba % RAID_FACTOR;
    DivModUnique(DriveLba(lba, nd), RAID_FACTOR, stripe / nd, off);
  }

  /** ... and the other. */
  lemma RaidSurjective(did: nat, dlba: nat, nd: nat)
    requires did < nd
    ensures Drive(GlobalLba(did, dlba, nd), nd) == did && DriveLba(GlobalLba(did, dlba, nd), nd) == dlba
  {
    var row, off := dlba / RAID_FACTOR, dlba % RAID_FACTOR;
    var lba := GlobalLba(did, dlba, nd);
    DivModUnique(lba, RAID_FACTOR, row * nd + did, off);
    DivModUnique(row * nd + did, nd, row, did);
  }

  /** A run inside one stripe is a contiguous run on one drive. */
  lemma RaidStripe(lba: nat, i: nat, nd: nat)
    requires nd > 0 && lba % 8 + i < 8
    ensures Drive(lba + i, nd) == Drive(lba, nd) && DriveLba(lba + i, nd) == DriveLba(lba, nd) + i
  {
    DivModUnique(lba + i, RAID_FACTOR, lba / RAID_FACTOR, lba % RAID_FACTOR + i);
  }

  /** A run that leaves its stripe never is one when there are several drives: the bound is exact. */
  lemma RaidStripeOnly(lba: nat, i: nat, nd: nat)
    requires nd > 1 && i < 8 <= lba % 8 + i
    ensures Drive(lba + i, nd) != Drive(lba, nd)
  {
    var stripe := lba / RAID_FACTOR;
    DivModUnique(lba + i, RAID_FACTOR, stripe + 1, lba % RAID_FACTOR + i - RAID_FACTOR);
    var q, r := stripe / nd, stripe % nd;
    if r + 1 == nd {
      DivModUnique(stripe + 1, nd, q + 1, 0);
    } else {
      DivModUnique(stripe + 1, nd, q, r + 1);
    }
  }

  /** A drive address is at most the sector it stands for. */
  lemma DriveLbaSmall(lba: nat, nd: nat)
    requires nd > 0
    ensures DriveLba(lba, nd) <= lba
  {
    var row := lba / RAID_FACTOR / nd;
    MulMono(1, nd, row);
    assert row <= row * nd <= lba / RAID_FACTOR;
  }

  /** Sectors of the file system fit the 32 bits of CDW10, so leaving CDW11 alone is right. */
  lemma Cdw10Fits(block: nat, offset: nat, nd: nat)
    requires nd > 0 && block < 700 * 1024 - 1
    ensures DriveLba((block * TWO_MB + offset % TWO_MB) / SECTOR, nd) < 0x1_0000_0000
  {
    hide DriveLba;
    DriveLbaSmall((block * TWO_MB + offset % TWO_MB) / SECTOR, nd);
  }

  // ---- request ids ----------------------------------------------------------------------

  function Rid(did: nat, core: nat, cid: nat, cores: nat, qd: nat): nat {
    did * qd * cores + core * qd + cid
  }

  datatype Place = Place(did: nat, qid: nat, cid: nat)

  /** `nvme_check` recovers the queue and the slot. Queue 0 is the admin queue. */
  function Decode(rid: nat, cores: nat, qd: nat): Place
    requires cores > 0 && qd > 0
  {
    Place(rid / qd / cores, rid / qd % cores + 1, rid % qd)
  }

  lemma RidRoundTrip(did: nat, core: nat, cid: nat, cores: nat, qd: nat)
    requires core < cores && cid < qd
    ensures Decode(Rid(did, core, cid, cores, qd), cores, qd) == Place(did, core + 1, cid)
  {
    var queue := did * cores + core;
    assert Rid(did, core, cid, cores, qd) == queue * qd + cid;
    DivModUnique(queue * qd + cid, qd, queue, cid);
    DivModUnique(queue, cores, did, core);
  }

  // ---- bounce buffers -------------------------------------------------------------------

  /** N_2MB_PAGE for a queue of depth qd. */
  function Pages(qd: nat): (n: nat)
    ensures n > 0
  {
    var n := qd * BLKSZ / TWO_MB;
    if n > 1 then n else 1
  }

  /** The page and the offset of slot cid's buffer. */
  function Buffer(cid: nat, qd: nat): (nat, nat) {
    (cid % Pages(qd), BLKSZ * (cid / Pages(qd)))
  }

  /** Different slots have disjoint buffers. */
  lemma BuffersDisjoint(a: nat, b: nat, qd: nat)
    requires a != b
    ensures var x, y := Buffer(a, qd), Buffer(b, qd);
            x.0 != y.0 || x.1 + BLKSZ <= y.1 || y.1 + BLKSZ <= x.1
  {
    var n := Pages(qd);
    if a % n == b % n {
      assert a == a / n * n + a % n && b == b / n * n + b % n;
      assert a / n != b / n;
    }
  }

  /**
   * All buffers lie inside their 2 MB pages exactly for depths whose buffers fill less than one page or a
   * whole number of pages.
   */
  lemma BuffersFit(qd: nat)
    requires qd > 0
    ensures (forall cid :: 0 <= cid < qd ==> Buffer(cid, qd).0 < Pages(qd) && Buffer(cid, qd).1 + BLKSZ <= TWO_MB)
            <==> (qd * BLKSZ < TWO_MB || qd * BLKSZ % TWO_MB == 0)
  {
    var n := Pages(qd);
    assert qd * BLKSZ / TWO_MB == qd / 512 && qd * BLKSZ % TWO_MB == qd % 512 * BLKSZ;
    if qd * BLKSZ < TWO_MB || qd * BLKSZ % TWO_MB == 0 {
      assert qd <= 512 * n;
      forall cid | 0 <= cid < qd ensures Buffer(cid, qd).0 < n && Buffer(cid, qd).1 + BLKSZ <= TWO_MB {
        DivBounds(cid, n, 512);
      }
    } else {
      assert qd - 1 >= 512 * n;
      var cid := qd - 1;
      DivBounds(cid, n, 512);
      assert Buffer(cid, qd).1 + BLKSZ > TWO_MB;
    }
  }
}
