/** The lock word of `futex_rw_mutex`: a record of its four parts, the operations the lock
    performs on it, and the same operations as the machine performs them on the packed word. */
module RwWord {
  import opened MachineWord

  /** The unpacked lock word: writer-locked bit, writer-waiting bit, reader-parked bit, and the
      number of read holds. */
  datatype Word = Word(locked: bool, waiting: bool, parked: bool, readers: nat)

  const FREE := Word(false, false, false, 0)

  /** The ways the lock changes its word. */
  datatype WordOp = Keep | TakeExclusive | AnnounceWriter | AnnounceReader | AdmitReader | DepartReader | Clear

  predicate Takeable(w: Word) {
    w.readers == 0 && !w.locked
  }

  predicate Announced(w: Word) {
    w.waiting || w.parked
  }

  predicate Applicable(w: Word, op: WordOp) {
    match op
    case TakeExclusive => Takeable(w)
    case DepartReader => w.readers > 0
    case _ => true
  }

  function Apply(w: Word, op: WordOp): Word
    requires Applicable(w, op)
  {
    match op
    case Keep => w
    case TakeExclusive => w.(locked := true)
    case AnnounceWriter => w.(waiting := true)
    case AnnounceReader => w.(parked := true)
    case AdmitReader => w.(readers := w.readers + 1)
    case DepartReader => w.(readers := w.readers - 1)
    case Clear => FREE
  }

  // ----- the packed word

  /** A word has three flag bits above at least one count bit. */
  predicate IsWord(x: Bits) {
    |x| >= 4
  }

  function LockedBit(n: nat): Bits requires n >= 4 { Bit(n, n - 1) }
  function WaitingBit(n: nat): Bits requires n >= 4 { Bit(n, n - 2) }
  function ParkedBit(n: nat): Bits requires n >= 4 { Bit(n, n - 3) }
  function ParkedBits(n: nat): Bits requires n >= 4 { Or(WaitingBit(n), ParkedBit(n)) }
  function ReaderMask(n: nat): Bits requires n >= 4 { LowMask(n, n - 3) }

  /** The largest count the word can hold. */
  function MaxReaders(n: nat): nat requires n >= 4 { Pow2(n - 3) - 1 }

  /** What the lock reads out of a packed word, with the masks it uses. */
  function Unpack(x: Bits): Word
    requires IsWord(x)
  {
    var n := |x|;
    Word(And(x, LockedBit(n)) != Zero(n), And(x, WaitingBit(n)) != Zero(n), And(x, ParkedBit(n)) != Zero(n),
         Value(And(x, ReaderMask(n))))
  }

  /** The new packed word, written with the operators the source uses. */
  function RawApply(x: Bits, op: WordOp): (z: Bits)
    requires IsWord(x)
    ensures |z| == |x|
  {
    var n := |x|;
    match op
    case Keep => x
    case TakeExclusive => Or(LockedBit(n), And(x, ParkedBits(n)))
    case AnnounceWriter => Or(x, WaitingBit(n))
    case AnnounceReader => Or(x, ParkedBit(n))
    case AdmitReader => Increment(x)
    case DepartReader => Decrement(x)
    case Clear => Zero(n)
  }

  lemma SingleBit(x: Bits, k: nat)
    requires k < |x|
    ensures And(x, Bit(|x|, k)) != Zero(|x|) <==> x[k]
  {
    if x[k] {
      assert And(x, Bit(|x|, k))[k] != Zero(|x|)[k];
    } else {
      assert And(x, Bit(|x|, k)) == Zero(|x|);
    }
  }

  lemma {:induction false} TrailingZeros(x: Bits, z: nat)
    ensures Value(x + Zero(z)) == Value(x)
  {
    if x == [] {
      assert x + Zero(z) == Zero(z);
      ValueBound(Zero(z));
    } else {
      assert (x + Zero(z))[1..] == x[1..] + Zero(z);
      TrailingZeros(x[1..], z);
    }
  }

  /** The masks select the three top bits and the number in the bits below them. */
  lemma UnpackBits(x: Bits)
    requires IsWord(x)
    ensures var n := |x|; Unpack(x) == Word(x[n - 1], x[n - 2], x[n - 3], Value(x[..n - 3]))
    ensures Unpack(x).readers <= MaxReaders(|x|)
  {
    var n := |x|;
    SingleBit(x, n - 1);
    SingleBit(x, n - 2);
    SingleBit(x, n - 3);
    assert And(x, ReaderMask(n)) == x[..n - 3] + Zero(3);
    TrailingZeros(x[..n - 3], 3);
    ValueBound(x[..n - 3]);
  }

  /** Distinct packed words read out differently, so comparing packed words (as a
      compare-exchange or a futex wait does) is comparing records. */
  lemma UnpackInjective(x: Bits, y: Bits)
    requires IsWord(x) && |x| == |y|
    ensures Unpack(x) == Unpack(y) <==> x == y
  {
    UnpackBits(x);
    UnpackBits(y);
    if Unpack(x) == Unpack(y) {
      var n := |x|;
      ValueInjective(x[..n - 3], y[..n - 3]);
      forall i | 0 <= i < n ensures x[i] == y[i] {
        assert i < n - 3 ==> x[i] == x[..n - 3][i] && y[i] == y[..n - 3][i];
      }
    }
  }

  /** The guards of the source, evaluated on the packed word, are the guards of the model. */
  lemma RawGuards(x: Bits)
    requires IsWord(x)
    ensures And(x, Or(ReaderMask(|x|), LockedBit(|x|))) == Zero(|x|) <==> Takeable(Unpack(x))
    ensures And(x, ParkedBits(|x|)) != Zero(|x|) <==> Announced(Unpack(x))
    ensures And(x, Or(LockedBit(|x|), WaitingBit(|x|))) == Zero(|x|) <==> !Unpack(x).locked && !Unpack(x).waiting
  {
    var n := |x|;
    UnpackBits(x);
    var low := x[..n - 3];
    ValueBound(low);
    var free := And(x, Or(ReaderMask(n), LockedBit(n)));
    assert free == low + [false, false, x[n - 1]];
    assert free == Zero(n) <==> low == Zero(n - 3) && !x[n - 1] by {
      if free == Zero(n) {
        assert low == free[..n - 3];
        assert free[n - 1] == Zero(n)[n - 1];
      }
    }
    AllZero(And(x, ParkedBits(n)), n - 2, n - 3);
    AllZero(And(x, Or(LockedBit(n), WaitingBit(n))), n - 1, n - 2);
  }

  lemma AllZero(x: Bits, j: nat, k: nat)
    requires j < |x| && k < |x|
    requires forall i :: 0 <= i < |x| && i != j && i != k ==> !x[i]
    ensures x == Zero(|x|) <==> !x[j] && !x[k]
  {
    assert x == Zero(|x|) ==> x[j] == Zero(|x|)[j] && x[k] == Zero(|x|)[k];
  }

  /** The `+1` of a reader admission adds one to the count and leaves the flag bits alone
      exactly when the count is below the mask; at the mask it carries into the flags. */
  lemma AdmitExact(x: Bits)
    requires IsWord(x)
    ensures Unpack(RawApply(x, AdmitReader)) == Apply(Unpack(x), AdmitReader) <==> Unpack(x).readers < MaxReaders(|x|)
  {
    var n := |x|;
    var low, high := x[..n - 3], x[n - 3..];
    var z := RawApply(x, AdmitReader);
    UnpackBits(x);
    UnpackBits(z);
    assert x == low + high;
    if Value(low) < MaxReaders(n) {
      IncrementLow(low, high);
      assert z[..n - 3] == Increment(low) && z[n - 3..] == high;
    }
  }

  /** What the carry does: the count restarts at zero and the reader-parked bit appears. */
  lemma AdmitOverflows(x: Bits)
    requires IsWord(x) && Unpack(x).readers == MaxReaders(|x|) && !Unpack(x).parked
    ensures Unpack(RawApply(x, AdmitReader)) == Unpack(x).(parked := true, readers := 0)
  {
    var n := |x|;
    var low, high := x[..n - 3], x[n - 3..];
    var z := RawApply(x, AdmitReader);
    UnpackBits(x);
    UnpackBits(z);
    assert x == low + high;
    IncrementCarry(low, high);
    assert z[..n - 3] == Zero(n - 3) && z[n - 3..] == [true] + high[1..];
    ValueBound(z[..n - 3]);
  }

  lemma DepartExact(x: Bits)
    requires IsWord(x) && Unpack(x).readers > 0
    ensures Unpack(RawApply(x, DepartReader)) == Apply(Unpack(x), DepartReader)
  {
    var n := |x|;
    var low, high := x[..n - 3], x[n - 3..];
    var z := RawApply(x, DepartReader);
    UnpackBits(x);
    UnpackBits(z);
    assert x == low + high;
    DecrementLow(low, high);
    assert z[..n - 3] == Decrement(low) && z[n - 3..] == high;
  }

  /** Every operation on the packed word is the operation on the record. */
  lemma RawRefines(x: Bits, op: WordOp)
    requires IsWord(x)
    requires Applicable(Unpack(x), op)
    requires op == AdmitReader ==> Unpack(x).readers < MaxReaders(|x|)
    ensures Unpack(RawApply(x, op)) == Apply(Unpack(x), op)
  {
    var n := |x|;
    var z := RawApply(x, op);
    UnpackBits(x);
    UnpackBits(z);
    match op
    case AdmitReader => AdmitExact(x);
    case DepartReader => DepartExact(x);
    case TakeExclusive =>
      ValueBound(x[..n - 3]);
      assert z[..n - 3] == x[..n - 3];
    case Clear =>
      assert z[..n - 3] == Zero(n - 3);
      ValueBound(z[..n - 3]);
    case _ =>
      assert z[..n - 3] == x[..n - 3];
  }
}
