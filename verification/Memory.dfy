/** Copying into buffers, and the sizes that go with it. */
module Memory {

  /** One more than a 32-bit word can count. */
  const TWO32 := 0x1_0000_0000

  /** `memcpy` into the elements from `at` on. */
  method CopyInto<T>(source: seq<T>, target: array<T>, at: nat)
    requires at + |source| <= target.Length
    modifies target
    ensures target[..] == old(target[..at]) + source + old(target[at + |source|..])
  {
    for i := 0 to |source|
      invariant target[..at] == old(target[..at]) && target[at..at + i] == source[..i]
      invariant target[at + |source|..] == old(target[at + |source|..])
    {
      target[at + i] := source[i];
    }
  }

  /** The size of a DMA transfer of `n` bytes, rounded up to whole quadwords. */
  function QuadBytes(n: nat): (q: nat)
    ensures n <= q < n + 16 && q % 16 == 0
  {
    (n + 15) / 16 * 16
  }
}
