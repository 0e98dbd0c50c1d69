/** Arithmetic of ring indices. */
module Modular {

  /** The ring slot of the k-th entry ever placed in a ring of n slots: k mod n. */
  function Slot(k: nat, n: nat): (i: nat)
    requires n > 0
    ensures i < n
  {
    if k < n then k else Slot(k - n, n)
  }

  /** The phase tag the k-th entry carries: 1 on the first lap, inverted on every later one. */
  function Phase(k: nat, n: nat): (p: nat)
    requires n > 0
    ensures p <= 1
  {
    if k < n then 1 else 1 - Phase(k - n, n)
  }

  /** The slot after i, as an index that wraps. */
  function Next(i: nat, n: nat): (j: nat)
    requires i < n
    ensures j < n
  {
    if i + 1 == n then 0 else i + 1
  }

  lemma {:induction false} SlotIsMod(k: nat, n: nat)
    requires n > 0
    ensures Slot(k, n) == k % n
  {
    if k < n {
      DivModUnique(k, n, 0, k);
    } else {
      SlotIsMod(k - n, n);
      DivModUnique(k, n, (k - n) / n + 1, (k - n) % n);
    }
  }

  lemma NextIsMod(i: nat, n: nat)
    requires i < n
    ensures Next(i, n) == (i + 1) % n
  {
    if i + 1 == n {
      DivModUnique(n, n, 1, 0);
    } else {
      DivModUnique(i + 1, n, 0, i + 1);
    }
  }

  lemma DivModUnique(x: int, n: int, q: int, r: int)
    requires n > 0 && 0 <= r < n && x == q * n + r
    ensures x / n == q && x % n == r
  {
    var q', r' := x / n, x % n;
    assert x == q' * n + r';
    assert (q - q') * n == r' - r;
    if q - q' >= 1 {
      assert (q - q') * n >= n by { MulMono(1, q - q', n); }
    } else if q - q' <= -1 {
      assert (q' - q) * n >= n by { MulMono(1, q' - q, n); }
    }
  }

  lemma MulMono(a: int, b: int, n: int)
    requires a <= b && n >= 0
    ensures a * n <= b * n
  {
  }

  lemma DivBounds(x: nat, n: nat, m: nat)
    requires n > 0
    ensures x / n < m <==> x < m * n
  {
    var q := x / n;
    if q < m {
      MulMono(q + 1, m, n);
    } else {
      MulMono(m, q, n);
    }
  }

  /** One step along the ring. */
  lemma {:induction false} SlotNext(k: nat, n: nat)
    requires n > 0
    ensures Slot(k + 1, n) == Next(Slot(k, n), n)
    ensures Phase(k + 1, n) == if Next(Slot(k, n), n) == 0 then 1 - Phase(k, n) else Phase(k, n)
  {
    if k >= n {
      SlotNext(k - n, n);
    }
  }

  /** On the first lap an entry's slot is its number. */
  lemma {:induction false} SlotSmall(k: nat, n: nat)
    requires k < n
    ensures Slot(k, n) == k
  {
    if k > 0 {
      SlotSmall(k - 1, n);
      SlotNext(k - 1, n);
    }
  }

  /** Two different entries less than one lap apart never share a slot. */
  lemma {:induction false} SlotDistinct(a: nat, b: nat, n: nat)
    requires n > 0 && a < b < a + n
    ensures Slot(a, n) != Slot(b, n)
  {
    if a >= n {
      SlotDistinct(a - n, b - n, n);
    } else if b >= n {
      assert Slot(b, n) == b - n < a;
    }
  }

  lemma SlotRepeats(k: nat, n: nat)
    requires n > 0
    ensures Slot(k + n, n) == Slot(k, n)
  {
  }

  lemma {:induction false} SlotAdd(k: nat, d: nat, n: nat)
    requires d < n
    ensures Slot(k + d, n) == if Slot(k, n) + d < n then Slot(k, n) + d else Slot(k, n) + d - n
  {
    if k >= n {
      SlotAdd(k - n, d, n);
      assert k + d - n == k - n + d;
    } else if k + d >= n {
      assert Slot(k + d - n, n) == k + d - n;
    }
  }

  /** Every slot is used once in each lap, wherever the lap starts. */
  lemma SlotCover(k: nat, i: nat, n: nat) returns (j: nat)
    requires i < n
    ensures k <= j < k + n && Slot(j, n) == i
  {
    var d := if i >= Slot(k, n) then i - Slot(k, n) else i - Slot(k, n) + n;
    SlotAdd(k, d, n);
    j := k + d;
  }

  /** Pigeonhole: distinct members of [lo, hi) number at most hi - lo. */
  lemma {:induction false} DistinctBound(s: seq<nat>, lo: nat, hi: nat)
    requires lo <= hi
    requires forall i :: 0 <= i < |s| ==> lo <= s[i] < hi
    requires forall i, j :: 0 <= i < j < |s| ==> s[i] != s[j]
    ensures |s| <= hi - lo
    decreases hi - lo
  {
    if s != [] {
      assert lo <= s[0] < hi;
      var t := hi - 1;
      if t in s {
        var i :| 0 <= i < |s| && s[i] == t;
        var s' := s[..i] + s[i + 1..];
        forall j | 0 <= j < |s'| ensures lo <= s'[j] < t {
          assert s'[j] == if j < i then s[j] else s[j + 1];
        }
        DistinctBound(s', lo, t);
      } else {
        DistinctBound(s, lo, t);
      }
    }
  }
}
