/**
 How the sender cuts a file into chunks (sender.rs `send_file_with_target_path`).
 The number of chunks is computed in u64 and then cut to u32.
 */
module Tiling {
  import opened Codec

  function Ceiling(size: nat, chunk: nat): (q: nat)
    requires 0 < chunk
  {
    (size + chunk - 1) / chunk
  }

  function TotalChunks(size: nat, chunk: nat): (total: nat)
    requires 0 < chunk
  {
    if size == 0 then 1 else Ceiling(size, chunk) % TWO_TO_THE_32
  }

  /** The quotient survives the cut to u32. */
  predicate Countable(size: nat, chunk: nat)
    requires 0 < chunk
  {
    Ceiling(size, chunk) < TWO_TO_THE_32
  }

  function OffsetOf(chunk: nat, i: nat): (offset: nat) {
    i * chunk
  }

  /** As the sender computes it; the subtraction is unsigned in the code. */
  function LengthOf(size: nat, chunk: nat, i: nat): (length: int)
    requires 0 < chunk
  {
    if i == TotalChunks(size, chunk) - 1 then size - OffsetOf(chunk, i) else chunk
  }

  lemma MulMonotone(a: nat, b: nat, c: nat)
    requires a <= b
    ensures a * c <= b * c
  {}

  lemma CeilingBounds(size: nat, chunk: nat)
    requires 0 < chunk && 0 < size
    ensures (Ceiling(size, chunk) - 1) * chunk < size <= Ceiling(size, chunk) * chunk
    ensures 0 < Ceiling(size, chunk)
  {
    var q, r := Ceiling(size, chunk), (size + chunk - 1) % chunk;
    assert size + chunk - 1 == q * chunk + r;
    assert (q - 1) * chunk == q * chunk - chunk;
    if q == 0 {
      assert false;
    }
  }

  /** Every chunk starts inside the file, ends where the next one starts, and the last one ends the file. */
  lemma ExactTiling(size: nat, chunk: nat, i: nat)
    requires 0 < chunk && Countable(size, chunk) && i < TotalChunks(size, chunk)
    ensures 0 <= LengthOf(size, chunk, i) <= chunk
    ensures OffsetOf(chunk, i) + LengthOf(size, chunk, i) ==
              if i + 1 < TotalChunks(size, chunk) then OffsetOf(chunk, i + 1) else size
    ensures i + 1 < TotalChunks(size, chunk) ==> LengthOf(size, chunk, i) == chunk
    ensures 0 < size ==> 0 < LengthOf(size, chunk, i)
    ensures OffsetOf(chunk, i) <= size
  {
    var n := TotalChunks(size, chunk);
    assert (i + 1) * chunk == i * chunk + chunk;
    if 0 < size {
      CeilingBounds(size, chunk);
      MulMonotone(i, n - 1, chunk);
      assert n * chunk == (n - 1) * chunk + chunk;
    }
  }

  /** The chunks end within the file. */
  lemma TileInside(size: nat, chunk: nat, i: nat)
    requires 0 < chunk && Countable(size, chunk) && i < TotalChunks(size, chunk)
    ensures 0 <= LengthOf(size, chunk, i) && OffsetOf(chunk, i) + LengthOf(size, chunk, i) <= size
  {
    hide OffsetOf, LengthOf, Ceiling, TotalChunks;
    ExactTiling(size, chunk, i);
    if i + 1 < TotalChunks(size, chunk) {
      ExactTiling(size, chunk, i + 1);
    }
  }

  /** The chunk a position belongs to. */
  lemma Covered(size: nat, chunk: nat, p: nat) returns (i: nat)
    requires 0 < chunk && Countable(size, chunk) && p < size
    ensures i < TotalChunks(size, chunk)
    ensures OffsetOf(chunk, i) <= p < OffsetOf(chunk, i) + LengthOf(size, chunk, i)
  {
    i := p / chunk;
    assert p == i * chunk + p % chunk;
    IndexInRange(size, chunk, p, i);
    ExactTiling(size, chunk, i);
    hide Ceiling, TotalChunks, LengthOf;
    assert OffsetOf(chunk, i + 1) == OffsetOf(chunk, i) + chunk by {
      assert (i + 1) * chunk == i * chunk + chunk;
    }
  }

  lemma IndexInRange(size: nat, chunk: nat, p: nat, i: nat)
    requires 0 < chunk && Countable(size, chunk) && i * chunk <= p < size
    ensures i < TotalChunks(size, chunk)
  {
    CeilingBounds(size, chunk);
    if Ceiling(size, chunk) <= i {
      MulMonotone(Ceiling(size, chunk), i, chunk);
    }
  }

  /** A position belongs to one chunk only. */
  lemma Disjoint(size: nat, chunk: nat, i: nat, j: nat)
    requires 0 < chunk && Countable(size, chunk) && i < j < TotalChunks(size, chunk)
    ensures OffsetOf(chunk, i) + LengthOf(size, chunk, i) <= OffsetOf(chunk, j)
  {
    ExactTiling(size, chunk, i);
    MulMonotone(i + 1, j, chunk);
  }

  /** All chunks but the last are full and no chunk is over-full, and there is at least one. */
  ghost predicate WellCut(size: nat, chunk: nat)
    requires 0 < chunk
  {
    0 < TotalChunks(size, chunk) &&
    forall i :: 0 <= i < TotalChunks(size, chunk) ==> 0 <= LengthOf(size, chunk, i) <= chunk
  }

  /** The cut is a proper one exactly when the number of chunks fits u32. */
  lemma WellCutIff(size: nat, chunk: nat)
    requires 0 < chunk
    ensures WellCut(size, chunk) <==> Countable(size, chunk)
  {
    if Countable(size, chunk) {
      if 0 < size {
        CeilingBounds(size, chunk);
      }
      forall i | 0 <= i < TotalChunks(size, chunk) ensures 0 <= LengthOf(size, chunk, i) <= chunk {
        ExactTiling(size, chunk, i);
      }
    } else {
      EmptyIsCountable(chunk);
      var q, n := Ceiling(size, chunk), TotalChunks(size, chunk);
      CeilingBounds(size, chunk);
      if 0 < n {
        MulMonotone(n + 1, q - 1, chunk);
        assert (n + 1) * chunk == (n - 1) * chunk + 2 * chunk;
        assert LengthOf(size, chunk, n - 1) > chunk;
      }
    }
  }

  lemma EmptyIsCountable(chunk: nat)
    requires 0 < chunk
    ensures Countable(0, chunk)
  {
    assert (chunk - 1) / chunk == 0;
  }
}
