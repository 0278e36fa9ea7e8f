/** The memory the allocator works on: 32-bit words at byte addresses that are multiples of 4.
    Words that were never written read as zero. */
module WordMemory {

  type Mem = map<int, int>

  function Rd(m: Mem, a: int): (w: int) {
    if a in m then m[a] else 0
  }

  function Wr(m: Mem, a: int, w: int): (r: Mem)
    ensures Rd(r, a) == w
    ensures forall b {:trigger Rd(r, b)} :: b != a ==> Rd(r, b) == Rd(m, b)
  {
    m[a := w]
  }

  // Offsets of the fields of a chunk record.
  const HEAD := 4
  const FD := 8
  const BK := 12
  const CHILD0 := 16
  const CHILD1 := 20
  const PARENT := 24
  const INDEX := 28

  /** The link fields of the chunks in `ps` (everything from `fd` to `index`) are the same in both memories. */
  ghost predicate SameLinks(m: Mem, m': Mem, ps: set<int>) {
    forall p, a :: p in ps && p + FD <= a < p + INDEX + 4 ==> Rd(m', a) == Rd(m, a)
  }
}
