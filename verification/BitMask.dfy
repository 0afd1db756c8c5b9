/** `bitMask`: a fixed number of 64-bit words, read as one set of bit positions.

    A word is kept as the set of positions of its one bits, so `|`, `&^` and the
    test against `1 << k` are union, difference and membership. */
module BitMask {

  const WORD_BITS: nat := 64

  predicate Position(b: nat, count: nat) { b < count }

  type Word = w: set<nat> | forall b :: b in w ==> Position(b, WORD_BITS)

  type Mask = seq<Word>

  predicate Has(m: Mask, bit: nat)
    requires bit < WORD_BITS * |m|
  {
    bit % WORD_BITS in m[bit / WORD_BITS]
  }

  ghost function Bits(m: Mask): set<nat>
  {
    set b: nat | b < WORD_BITS * |m| && Has(m, b)
  }

  function Zero(words: nat): Mask { seq(words, _ => {}) }

  function SetBit(m: Mask, bit: nat): Mask
    requires bit < WORD_BITS * |m|
  {
    m[bit / WORD_BITS := m[bit / WORD_BITS] + {bit % WORD_BITS}]
  }

  lemma SetBitBits(m: Mask, bit: nat)
    requires bit < WORD_BITS * |m|
    ensures Bits(SetBit(m, bit)) == Bits(m) + {bit}
  {
    forall b: nat | b < WORD_BITS * |m|
      ensures Has(SetBit(m, bit), b) <==> Has(m, b) || b == bit
    {}
  }

  /** `bitMask.subsetOf`: one word at a time, stopping at the first difference. */
  method SubsetOf(m: Mask, other: Mask) returns (r: bool)
    requires |m| == |other|
    ensures r <==> Bits(m) <= Bits(other)
  {
    for i := 0 to |m|
      invariant forall w :: 0 <= w < i ==> m[w] <= other[w]
    {
      if m[i] - other[i] != {} {
        ghost var k :| k in m[i] - other[i];
        ghost var b := WORD_BITS * i + k;
        assert b / WORD_BITS == i && b % WORD_BITS == k;
        assert b in Bits(m) && b !in Bits(other);
        return false;
      }
      forall k | k in m[i]
        ensures k in other[i]
      {
        assert k !in m[i] - other[i];
      }
    }
    forall b | b in Bits(m)
      ensures b in Bits(other)
    {
      assert Has(m, b) && m[b / WORD_BITS] <= other[b / WORD_BITS];
    }
    return true;
  }

  /** `unionMask`. */
  method UnionMask(left: Mask, right: Mask) returns (result: Mask)
    requires |left| == |right|
    ensures |result| == |left| && Bits(result) == Bits(left) + Bits(right)
  {
    result := Zero(|left|);
    for i := 0 to |left|
      invariant |result| == |left|
      invariant forall w :: 0 <= w < i ==> result[w] == left[w] + right[w]
    {
      result := result[i := left[i] + right[i]];
    }
  }

  /** `evaluator.fullMask`. */
  method FullMask(count: nat) returns (mask: Mask)
    ensures |mask| == (count + WORD_BITS - 1) / WORD_BITS
    ensures Bits(mask) == set b: nat | b < count && Position(b, count)
  {
    mask := Zero((count + WORD_BITS - 1) / WORD_BITS);
    for bit := 0 to count
      invariant |mask| == (count + WORD_BITS - 1) / WORD_BITS
      invariant Bits(mask) == set b: nat | b < bit && Position(b, bit)
    {
      SetBitBits(mask, bit);
      mask := SetBit(mask, bit);
    }
  }
}
