/** Payload bytes of a sequence of records, given by their sizes. */
module Sizing {

  /** A batch is the sizes of its records. */
  type Batch = seq<nat>

  function Sizes(b: Batch): nat {
    if b == [] then 0 else Sizes(b[..|b| - 1]) + b[|b| - 1]
  }

  lemma {:induction false} SizesConcat(a: Batch, b: Batch)
    ensures Sizes(a + b) == Sizes(a) + Sizes(b)
  {
    if b == [] {
      assert a + b == a;
    } else {
      assert (a + b)[..|a + b| - 1] == a + b[..|b| - 1];
      SizesConcat(a, b[..|b| - 1]);
    }
  }

  lemma SizesOne(n: nat)
    ensures Sizes([n]) == n
  {
    assert [n][..0] == [];
  }
}
