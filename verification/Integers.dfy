/** Machine integers: an optimised build wraps around where a result leaves its range. */
module Integers {
  const TWO_64: nat := 0x1_0000_0000_0000_0000

  type U16 = n: nat | n < 0x1_0000
  type U32 = n: nat | n < 0x1_0000_0000
  type U64 = n: nat | n < TWO_64

  function Wrap(n: int): U64 { n % TWO_64 }

  lemma WrapAdd(total: int, more: int)
    ensures Wrap(Wrap(total) + more) == Wrap(total + more)
  {
  }

  lemma WrapsOutside(n: int)
    ensures Wrap(n) == n <==> 0 <= n < TWO_64
  {
  }
}
