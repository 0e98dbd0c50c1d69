/** The bitmap of rewritten addresses: one bit for each address. */
module Bitmap {
  /** 1 << k. */
  function Bit(k: nat): bv8
    requires k < 8
  {
    match k
    case 0 => 1 case 1 => 2 case 2 => 4 case 3 => 8 case 4 => 16 case 5 => 32 case 6 => 64 case _ => 128
  }

  predicate IsSet(bm: seq<bv8>, v: nat)
    requires v < 8 * |bm|
  {
    bm[v / 8] & Bit(v % 8) != 0
  }

  lemma BitsApart(b: bv8, j: nat, k: nat)
    requires j < 8 && k < 8
    ensures (b | Bit(k)) & Bit(j) != 0 <==> j == k || b & Bit(j) != 0
  {
    OneBit(b, j);
    if j == 0 {} else if j == 1 {} else if j == 2 {} else if j == 3 {} else if j == 4 {} else if j == 5 {} else if j == 6 {} else {}
  }

  lemma OneBit(b: bv8, k: nat)
    requires k < 8
    ensures (b | Bit(k)) & Bit(k) != 0
  {
  }

  /** bitmap_set. */
  method SetBit(bm: array<bv8>, v: nat)
    requires v < 8 * bm.Length
    modifies bm
    ensures forall u: nat {:trigger IsSet(bm[..], u)} :: u < 8 * bm.Length ==> (IsSet(bm[..], u) <==> u == v || old(IsSet(bm[..], u)))
  {
    ghost var before := bm[..];
    bm[v / 8] := bm[v / 8] | Bit(v % 8);
    forall u: nat | u < 8 * bm.Length ensures IsSet(bm[..], u) <==> u == v || IsSet(before, u) {
      BitsApart(before[u / 8], u % 8, v % 8);
    }
  }
}
