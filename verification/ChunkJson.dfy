/**
 The size of a `TransferChunk` message as JSON text (protocol.rs lines 79-85, sender.rs line 10):
 numbers in decimal (section 6 of RFC 8259), the data as an array of numbers (section 5). The id and
 the hash are the sender's: 21 and 64 characters that JSON does not escape.
 */
module ChunkJson {
  import opened Outcomes
  import opened Codec
  import opened Tiling

  const DEFAULT_CHUNK_SIZE := 2 * 1024 * 1024

  const TWO_TO_THE_64 := 0x1_0000_0000_0000_0000

  function Digit(d: nat): (c: char)
    requires d < 10
  {
    "0123456789"[d]
  }

  function Decimal(n: nat): (digits: string) {
    if n < 10 then [Digit(n)] else Decimal(n / 10) + [Digit(n % 10)]
  }

  function ReadDecimal(s: string): (n: int) {
    if s == [] then 0 else 10 * ReadDecimal(s[..|s| - 1]) + (s[|s| - 1] as int - '0' as int)
  }

  /** The digits stand for the number. */
  lemma {:induction false} DecimalReadsBack(n: nat)
    ensures ReadDecimal(Decimal(n)) == n
  {
    if 10 <= n {
      DecimalReadsBack(n / 10);
    }
    assert forall d: nat :: d < 10 ==> Digit(d) as int - '0' as int == d;
  }

  /** The elements of a JSON array of bytes, comma separated. */
  function Elements(data: seq<Byte>): (text: string) {
    if data == [] then ""
    else if |data| == 1 then Decimal(data[0])
    else Elements(data[..|data| - 1]) + "," + Decimal(data[|data| - 1])
  }

  function Quoted(s: string): (text: string) {
    "\"" + s + "\""
  }

  function Fields(id: string, index: nat, offset: nat): (text: string) {
    "{\"transfer_id\":" + Quoted(id) + ",\"chunk_index\":" + Decimal(index) + ",\"offset\":" + Decimal(offset)
  }

  function ChunkText(id: string, index: nat, offset: nat, data: seq<Byte>, hash: string): (text: string) {
    "{\"type\":\"TransferChunk\",\"data\":" + Fields(id, index, offset) +
    ",\"data\":[" + Elements(data) + "]" + ",\"chunk_hash\":" + Quoted(hash) + "}}"
  }

  function Power10(k: nat): (p: nat) {
    if k == 0 then 1 else 10 * Power10(k - 1)
  }

  lemma {:induction false} DecimalLength(n: nat, k: nat)
    requires 1 <= k && n < Power10(k)
    ensures 1 <= |Decimal(n)| <= k
    decreases k
  {
    if 10 <= n {
      DecimalLength(n / 10, k - 1);
    }
  }

  lemma {:induction false} DecimalExact(n: nat, k: nat)
    requires 1 <= k && Power10(k - 1) <= n < Power10(k)
    ensures |Decimal(n)| == k
    decreases k
  {
    if 2 <= k {
      assert Power10(k - 1) == 10 * Power10(k - 2);
      assert 10 <= n;
      DecimalExact(n / 10, k - 1);
    }
  }

  /** Four characters a byte, at most, and exactly that for bytes of three digits. */
  lemma {:induction false} ElementsLength(data: seq<Byte>)
    requires data != []
    ensures |Elements(data)| <= 4 * |data| - 1
    ensures (forall i :: 0 <= i < |data| ==> 100 <= data[i]) ==> |Elements(data)| == 4 * |data| - 1
  {
    var n := |data| - 1;
    assert Power10(3) == 1000 && Power10(2) == 100;
    DecimalLength(data[n], 3);
    if 100 <= data[n] {
      DecimalExact(data[n], 3);
    }
    if n > 0 {
      ElementsLength(data[..n]);
    }
  }

  lemma FieldsLength(id: string, index: nat, offset: nat)
    ensures |Fields(id, index, offset)| == |id| + |Decimal(index)| + |Decimal(offset)| + 42
  {
    assert |"{\"transfer_id\":"| == 15;
    assert |",\"chunk_index\":"| == 15;
    assert |",\"offset\":"| == 10;
    assert |Quoted(id)| == |id| + 2;
  }

  lemma ChunkTextLength(id: string, index: nat, offset: nat, data: seq<Byte>, hash: string)
    ensures |ChunkText(id, index, offset, data, hash)| ==
              |id| + |Decimal(index)| + |Decimal(offset)| + |Elements(data)| + |hash| + 101
  {
    FieldsLength(id, index, offset);
    assert |"{\"type\":\"TransferChunk\",\"data\":"| == 31;
    assert |",\"data\":["| == 9;
    assert |",\"chunk_hash\":"| == 14;
    assert |Quoted(hash)| == |hash| + 2;
  }

  /** What the sender fills in beside the data: its id and hash have fixed lengths, the numbers fit u32 and u64. */
  predicate SenderShaped(id: string, index: nat, offset: nat, hash: string) {
    |id| == 21 && |hash| == 64 && index < TWO_TO_THE_32 && offset < TWO_TO_THE_64
  }

  lemma Powers()
    ensures Power10(9) == 1_000_000_000 && Power10(10) == 10_000_000_000
    ensures Power10(19) == 10_000_000_000_000_000_000 && Power10(20) == 100_000_000_000_000_000_000
  {
    assert Power10(5) == 100_000;
    assert Power10(9) == 1_000_000_000;
    assert Power10(10) == 10_000_000_000;
    assert Power10(15) == 1_000_000_000_000_000;
    assert Power10(19) == 10_000_000_000_000_000_000;
  }

  lemma ChunkTextBound(id: string, index: nat, offset: nat, data: seq<Byte>, hash: string)
    requires SenderShaped(id, index, offset, hash) && data != []
    ensures |ChunkText(id, index, offset, data, hash)| <= 4 * |data| + 215
  {
    Powers();
    DecimalLength(index, 10);
    DecimalLength(offset, 20);
    ElementsLength(data);
    ChunkTextLength(id, index, offset, data, hash);
  }

  /** A chunk of the default size, whatever its bytes, makes a frame the decoder does not refuse for its length. */
  lemma DefaultChunkFits(id: string, index: nat, offset: nat, data: seq<Byte>, hash: string)
    requires SenderShaped(id, index, offset, hash) && |data| <= DEFAULT_CHUNK_SIZE
    ensures |ChunkText(id, index, offset, data, hash)| <= MAX_MESSAGE_SIZE
  {
    if data == [] {
      Powers();
      DecimalLength(index, 10);
      DecimalLength(offset, 20);
      ChunkTextLength(id, index, offset, data, hash);
    } else {
      ChunkTextBound(id, index, offset, data, hash);
    }
  }

  /** A chunk message of a file of `size` bytes that the sender cuts at `n`. */
  predicate SentChunk(size: nat, n: nat, id: string, index: nat, data: seq<Byte>, hash: string)
    requires 0 < n
  {
    |id| == 21 && |hash| == 64 && size < TWO_TO_THE_64 && Countable(size, n) &&
    index < TotalChunks(size, n) && |data| == LengthOf(size, n, index)
  }

  /** Whatever the file, no chunk message of it is above the limit. */
  ghost predicate AlwaysFits(n: nat)
    requires 0 < n
  {
    forall size, id, index, data, hash | SentChunk(size, n, id, index, data, hash) ::
      |ChunkText(id, index, OffsetOf(n, index), data, hash)| <= MAX_MESSAGE_SIZE
  }

  const LARGEST_SAFE_CHUNK := 4_194_251

  lemma OffsetDigits(index: nat, n: nat)
    requires index < TWO_TO_THE_32 && n <= LARGEST_SAFE_CHUNK
    ensures |Decimal(OffsetOf(n, index))| <= 17
  {
    Powers();
    MulMonotone(index, TWO_TO_THE_32 - 1, n);
    MulMonotone(n, LARGEST_SAFE_CHUNK, TWO_TO_THE_32 - 1);
    assert Power10(17) == 100 * Power10(15);
    DecimalLength(OffsetOf(n, index), 17);
  }

  lemma SafeChunkFits(size: nat, n: nat, id: string, index: nat, data: seq<Byte>, hash: string)
    requires 0 < n <= LARGEST_SAFE_CHUNK && SentChunk(size, n, id, index, data, hash)
    ensures |ChunkText(id, index, OffsetOf(n, index), data, hash)| <= MAX_MESSAGE_SIZE
  {
    Powers();
    DecimalLength(index, 10);
    OffsetDigits(index, n);
    ExactTiling(size, n, index);
    hide OffsetOf, LengthOf, TotalChunks, Countable, Decimal;
    if data != [] {
      ElementsLength(data);
    }
    ChunkTextLength(id, index, OffsetOf(n, index), data, hash);
  }

  /** A file of a thousand million full chunks and one byte, and the number of its last full chunk. */
  const LONG_INDEX := 1_000_000_000

  lemma FullChunksAndOneByte(k: nat, n: nat)
    requires 1 < n && k + 2 < TWO_TO_THE_32
    ensures Countable((k + 1) * n + 1, n) && TotalChunks((k + 1) * n + 1, n) == k + 2
    ensures LengthOf((k + 1) * n + 1, n, k) == n
  {
    var size := (k + 1) * n + 1;
    assert size + n - 1 == (k + 2) * n;
    Quotient(k + 2, n);
  }

  lemma Quotient(k: nat, n: nat)
    requires 0 < n
    ensures k * n / n == k
  {
    var q, r := k * n / n, k * n % n;
    assert k * n == q * n + r;
    assert (q + 1) * n == q * n + n && (k + 1) * n == k * n + n;
    if q < k {
      MulMonotone(q + 1, k, n);
    } else if k < q {
      MulMonotone(k + 1, q, n);
    }
  }

  lemma LongFileIsCut(n: nat)
    requires 1 < n < TWO_TO_THE_32
    ensures var size := (LONG_INDEX + 1) * n + 1;
            size < TWO_TO_THE_64 && Countable(size, n) && LONG_INDEX < TotalChunks(size, n) &&
            LengthOf(size, n, LONG_INDEX) == n
  {
    FullChunksAndOneByte(LONG_INDEX, n);
    hide Countable, TotalChunks, LengthOf;
  }

  lemma LongOffsetDigits(n: nat)
    requires LARGEST_SAFE_CHUNK < n
    ensures |Decimal(OffsetOf(n, LONG_INDEX))| >= 16
  {
    Powers();
    DecimalAtLeast(LONG_INDEX * n, 16);
  }

  lemma {:induction false} DecimalAtLeast(n: nat, k: nat)
    requires 1 <= k && Power10(k - 1) <= n
    ensures |Decimal(n)| >= k
    decreases k
  {
    if 2 <= k {
      DecimalAtLeast(n / 10, k - 1);
    }
  }

  /** The bound is sharp: the chunk sizes that are safe for every file are exactly those up to 4194251 bytes. */
  lemma ChunkSizeIsSafeIff(n: nat)
    requires 0 < n < TWO_TO_THE_32
    ensures AlwaysFits(n) <==> n <= LARGEST_SAFE_CHUNK
  {
    hide OffsetOf, LengthOf, TotalChunks, Countable, Ceiling, Decimal;
    if n <= LARGEST_SAFE_CHUNK {
      forall size, id, index, data, hash | SentChunk(size, n, id, index, data, hash)
        ensures |ChunkText(id, index, OffsetOf(n, index), data, hash)| <= MAX_MESSAGE_SIZE
      {
        SafeChunkFits(size, n, id, index, data, hash);
      }
    } else {
      var id, hash, data: seq<Byte> := seq(21, _ => 'x'), seq(64, _ => 'x'), seq(n, _ => 255);
      Powers();
      DecimalExact(LONG_INDEX, 10);
      LongOffsetDigits(n);
      LongFileIsCut(n);
      ElementsLength(data);
      ChunkTextLength(id, LONG_INDEX, OffsetOf(n, LONG_INDEX), data, hash);
      assert SentChunk((LONG_INDEX + 1) * n + 1, n, id, LONG_INDEX, data, hash);
    }
  }
}
