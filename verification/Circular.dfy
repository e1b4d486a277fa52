/** A queue kept in a fixed buffer: `count` entries from `start` on, wrapping at the end. */
module Circular {

  /** The index `j` places after `start` in a buffer of `n` entries. */
  function Place(n: nat, start: nat, j: nat): (p: nat)
    requires start < n && j <= n
    ensures p < n
  {
    if start + j < n then start + j else start + j - n
  }

  /** The queued entries, the oldest first. */
  function Slots<T>(e: seq<T>, start: nat, count: nat): (q: seq<T>)
    requires start < |e| && count <= |e|
    ensures |q| == count
  {
    seq(count, j requires 0 <= j < count => e[Place(|e|, start, j)])
  }

  lemma SlotsPushed<T>(e: seq<T>, start: nat, count: nat, x: T)
    requires start < |e| && count < |e|
    ensures Slots(e[Place(|e|, start, count) := x], start, count + 1) == Slots(e, start, count) + [x]
  {
  }

  lemma SlotsDropped<T>(e: seq<T>, start: nat, count: nat, k: nat)
    requires start < |e| && k <= count <= |e|
    ensures Slots(e, Place(|e|, start, k), count - k) == Slots(e, start, count)[k..]
  {
  }

  lemma SlotsFirst<T>(e: seq<T>, start: nat, count: nat)
    requires start < |e| && 0 < count <= |e|
    ensures Slots(e, start, count)[0] == e[start]
  {
  }
}
