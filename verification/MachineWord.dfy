/** Unsigned machine words of any width, as sequences of bits with the least significant first,
    and the operators the lock word is computed with. */
module MachineWord {

  type Bits = seq<bool>

  /** The number a word stands for. */
  function Value(x: Bits): nat {
    if x == [] then 0 else (if x[0] then 1 else 0) + 2 * Value(x[1..])
  }

  function Zero(n: nat): (x: Bits)
    ensures |x| == n
  {
    seq(n, i => false)
  }

  /** `1 << k` in a word of `n` bits. */
  function Bit(n: nat, k: nat): (x: Bits)
    ensures |x| == n
  {
    seq(n, i => i == k)
  }

  /** `( 1 << k ) - 1` in a word of `n` bits. */
  function LowMask(n: nat, k: nat): (x: Bits)
    ensures |x| == n
  {
    seq(n, i => i < k)
  }

  function And(x: Bits, y: Bits): (z: Bits)
    requires |x| == |y|
    ensures |z| == |x|
  {
    seq(|x|, i requires 0 <= i < |x| => x[i] && y[i])
  }

  function Or(x: Bits, y: Bits): (z: Bits)
    requires |x| == |y|
    ensures |z| == |x|
  {
    seq(|x|, i requires 0 <= i < |x| => x[i] || y[i])
  }

  /** `x + 1`, with the carry rippling upwards and lost off the top. */
  function Increment(x: Bits): (z: Bits)
    ensures |z| == |x|
  {
    if x == [] then [] else if x[0] then [false] + Increment(x[1..]) else [true] + x[1..]
  }

  /** `x - 1`, with the borrow rippling upwards and lost off the top. */
  function Decrement(x: Bits): (z: Bits)
    ensures |z| == |x|
  {
    if x == [] then [] else if x[0] then [false] + x[1..] else [true] + Decrement(x[1..])
  }

  function Pow2(k: nat): (p: nat)
    ensures p >= 1
  {
    if k == 0 then 1 else 2 * Pow2(k - 1)
  }

  lemma {:induction false} ValueBound(x: Bits)
    ensures Value(x) < Pow2(|x|)
    ensures Value(x) == 0 <==> x == Zero(|x|)
    ensures Value(x) == Pow2(|x|) - 1 <==> forall i :: 0 <= i < |x| ==> x[i]
  {
    if x != [] {
      ValueBound(x[1..]);
      assert x == [x[0]] + x[1..];
      assert Zero(|x|)[1..] == Zero(|x[1..]|);
      if Value(x) == 0 {
        assert x == Zero(|x|);
      }
    }
  }

  lemma {:induction false} ValueInjective(x: Bits, y: Bits)
    requires |x| == |y| && Value(x) == Value(y)
    ensures x == y
  {
    if x != [] {
      ValueInjective(x[1..], y[1..]);
      assert x == [x[0]] + x[1..] && y == [y[0]] + y[1..];
    }
  }

  /** Below the all-ones value an increment adds one and no carry leaves the low part. */
  lemma {:induction false} IncrementLow(low: Bits, high: Bits)
    requires Value(low) < Pow2(|low|) - 1
    ensures Increment(low + high) == Increment(low) + high
    ensures Value(Increment(low)) == Value(low) + 1
  {
    assert (low + high)[1..] == low[1..] + high;
    if low[0] {
      IncrementLow(low[1..], high);
    }
  }

  /** At the all-ones value the low part wraps to zero and the carry goes into the high part. */
  lemma {:induction false} IncrementCarry(low: Bits, high: Bits)
    requires Value(low) == Pow2(|low|) - 1
    ensures Increment(low + high) == Zero(|low|) + Increment(high)
  {
    if low == [] {
      assert low + high == high;
    } else {
      ValueBound(low);
      ValueBound(low[1..]);
      assert (low + high)[1..] == low[1..] + high;
      IncrementCarry(low[1..], high);
    }
  }

  /** Above zero a decrement subtracts one and no borrow leaves the low part. */
  lemma {:induction false} DecrementLow(low: Bits, high: Bits)
    requires Value(low) > 0
    ensures Decrement(low + high) == Decrement(low) + high
    ensures Value(Decrement(low)) == Value(low) - 1
  {
    assert (low + high)[1..] == low[1..] + high;
    if !low[0] {
      DecrementLow(low[1..], high);
    }
  }
}
