/** The ledger's counters: 32 bits wide, wrapping. */
module Counters {
  const WORD: nat := 0x1_0000_0000

  type Counter = n: nat | n < WORD

  function Bump(n: nat, k: nat := 1): (r: Counter) {
    (n + k) % WORD
  }

  lemma BumpTwice(n: nat, a: nat, b: nat)
    ensures Bump(Bump(n, a), b) == Bump(n, a + b)
  {}
}
