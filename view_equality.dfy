/**
 * Equality and hash codes of region views. Two views are equal when they are
 * of the same kind, their bases are equal and their transform parameters
 * are equal; the bound multiply kernel takes no part.
 */
module ViewEquality {
  import opened Views

  /**
   * `equals` of the five view kinds. The storage leaf's own `equals` is not
   * part of this model: two leaves are taken as equal when their shapes and
   * kernels are equal.
   */
  predicate Equal(a: View, b: View) {
    match a
    case Leaf(_, _, _) => a == b
    case Rows(ab, _, ai) => b.Rows? && Equal(ab, b.base) && ai == b.idx
    case Cols(ab, _, ai) => b.Cols? && Equal(ab, b.base) && ai == b.idx
    case Offset(ab, _, dr, dc) => b.Offset? && Equal(ab, b.base) && dc == b.dc && dr == b.dr
    case Limit(ab, _, rl, cl) => b.Limit? && Equal(ab, b.base) && cl == b.cl && rl == b.rl
    case Transposed(ab, _) => b.Transposed? && Equal(ab, b.base)
  }

  /** `Arrays.hashCode` of an index array (without 32-bit wrap-around). */
  function IndexHash(s: seq<int>): int
    decreases |s|
  {
    if s == [] then 1 else 31 * IndexHash(s[..|s| - 1]) + s[|s| - 1]
  }

  /**
   * `hashCode` of a view (without 32-bit wrap-around); `leafHash` stands for
   * the storage leaf's own hash code.
   */
  function Hash(v: View, leafHash: int): int {
    match v
    case Leaf(_, _, _) => leafHash
    case Rows(b, _, idx) => 31 * (31 + Hash(b, leafHash)) + IndexHash(idx)
    case Cols(b, _, idx) => 31 * (31 + Hash(b, leafHash)) + IndexHash(idx)
    case Offset(b, _, dr, dc) => 31 * (31 * (31 + Hash(b, leafHash)) + dc) + dr
    case Limit(b, _, rl, cl) => 31 * (31 * (31 + Hash(b, leafHash)) + cl) + rl
    case Transposed(b, _) => 31 + Hash(b, leafHash)
  }

  /** Every view equals itself, so the identity shortcut in `equals` changes no answer. */
  lemma {:induction false} EqualReflexive(a: View)
    ensures Equal(a, a)
  {
    if !a.Leaf? {
      EqualReflexive(a.base);
    }
  }

  lemma {:induction false} EqualSymmetric(a: View, b: View)
    requires Equal(a, b)
    ensures Equal(b, a)
  {
    if !a.Leaf? {
      EqualSymmetric(a.base, b.base);
    }
  }

  lemma {:induction false} EqualTransitive(a: View, b: View, c: View)
    requires Equal(a, b) && Equal(b, c)
    ensures Equal(a, c)
  {
    if !a.Leaf? {
      EqualTransitive(a.base, b.base, c.base);
    }
  }

  /** Equal views have equal hash codes. */
  lemma {:induction false} EqualSameHash(a: View, b: View, leafHash: int)
    requires Equal(a, b)
    ensures Hash(a, leafHash) == Hash(b, leafHash)
  {
    if !a.Leaf? {
      EqualSameHash(a.base, b.base, leafHash);
    }
  }

  /** Equal views have the same shape and redirect every coordinate to the same leaf cell. */
  lemma {:induction false} EqualSameCells(a: View, b: View)
    requires Equal(a, b)
    ensures Shape(a) == Shape(b) && LeafOf(a) == LeafOf(b)
    ensures forall r, c :: Locate(a, r, c) == Locate(b, r, c)
  {
    if !a.Leaf? {
      EqualSameCells(a.base, b.base);
    }
  }

  /**
   * Although `equals` ignores the kernel, two equal views built by the
   * factories are identical: the kernel is determined by the rest.
   */
  lemma {:induction false} EqualBuiltIdentical(a: View, b: View)
    requires Built(a) && Built(b) && Equal(a, b)
    ensures a == b
  {
    if !a.Leaf? {
      EqualBuiltIdentical(a.base, b.base);
    }
  }
}
