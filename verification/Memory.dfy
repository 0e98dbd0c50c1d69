/** Byte-addressed stores: the host's memory and each drive's medium. */
module Memory {
  newtype byte = b: int | 0 <= b < 256

  /** A store holds a byte at every address; a transfer only ever touches the range it names. */
  type Store = int -> byte

  /** The `n` bytes at address `a`. */
  function Get(st: Store, a: int, n: nat): (d: seq<byte>)
    ensures |d| == n
    ensures forall i :: 0 <= i < n ==> d[i] == st(a + i)
  {
    seq(n, i => st(a + i))
  }

  /** `st` after the bytes `d` were copied to address `a`. */
  function Put(st: Store, a: int, d: seq<byte>): (st': Store)
    ensures forall x :: st'(x) == if a <= x < a + |d| then d[x - a] else st(x)
  {
    x => if a <= x < a + |d| then d[x - a] else st(x)
  }
}
