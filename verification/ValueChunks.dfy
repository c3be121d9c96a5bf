/** CompressedSecondaryCache: a value split into chunks that fit allocator bins, and merged. */
module ValueChunks {
  type Byte = b: int | 0 <= b < 256

  /** malloc_bin_sizes_ */
  const BINS: seq<nat> := [128, 256, 512, 1024, 2048, 4096, 8192, 16384]

  /** sizeof(CacheValueChunk) - 1: what a chunk takes besides its data. */
  const OVERHEAD: nat := 23

  datatype CompressionType = NoCompression | Compression

  /** The data of a chunk and the size of its allocation. */
  datatype Chunk = Chunk(data: seq<Byte>, size: nat)

  ghost function Contents(chunks: seq<Chunk>): seq<Byte> {
    if chunks == [] then [] else chunks[0].data + Contents(chunks[1..])
  }

  ghost function Allocated(chunks: seq<Chunk>): nat {
    if chunks == [] then 0 else chunks[0].size + Allocated(chunks[1..])
  }

  lemma {:induction false} Append(chunks: seq<Chunk>, c: Chunk)
    ensures Contents(chunks + [c]) == Contents(chunks) + c.data
    ensures Allocated(chunks + [c]) == Allocated(chunks) + c.size
  {
    if chunks == [] {
      assert chunks + [c] == [c] && [c][1..] == [];
      assert Contents([c]) == c.data + Contents([c][1..]);
    } else {
      assert (chunks + [c])[1..] == chunks[1..] + [c];
      Append(chunks[1..], c);
    }
  }

  /** std::upper_bound: the first bin that is larger. */
  method UpperBound(size: nat) returns (i: nat)
    ensures i <= |BINS| && (forall j :: 0 <= j < i ==> BINS[j] <= size) && (i < |BINS| ==> BINS[i] > size)
  {
    i := 0;
    while i < |BINS| && BINS[i] <= size
      invariant i <= |BINS| && forall j :: 0 <= j < i ==> BINS[j] <= size
    {
      i := i + 1;
    }
  }

  /** The size is between the smallest and the largest bin, and not close below one. */
  ghost predicate Splits(size: nat) {
    BINS[0] <= size < BINS[|BINS| - 1] && forall i :: 0 <= i < |BINS| && BINS[i] > size ==> BINS[i] - size >= BINS[0]
  }

  /** The size to allocate for the next chunk of what is left: all of it if it is small,
      large, close below a bin, or not compressed, else the largest bin it fills. */
  method ChunkSize(left: nat, compression: CompressionType) returns (size: nat)
    requires left > 0
    ensures OVERHEAD < size <= OVERHEAD + left
    ensures size < OVERHEAD + left ==>
            compression.Compression? && size in BINS && forall b :: b in BINS && b <= OVERHEAD + left ==> b <= size
    ensures compression.NoCompression? ==> size == OVERHEAD + left
    ensures Splits(OVERHEAD + left) && compression.Compression? ==> size in BINS
  {
    var predicted := OVERHEAD + left;
    var upper := UpperBound(predicted);
    if upper == 0 || upper == |BINS| || BINS[upper] - predicted < BINS[0] || compression.NoCompression? {
      size := predicted;
      assert upper == 0 ==> BINS[0] > predicted;
      assert upper == |BINS| ==> BINS[|BINS| - 1] <= predicted;
    } else {
      size := BINS[upper - 1];
      assert forall i, j :: 0 <= i < j < |BINS| ==> BINS[i] < BINS[j];
      assert BINS[0] == 128;
    }
  }

  /** Every chunk but the last fills a bin. */
  ghost predicate FillBins(chunks: seq<Chunk>, n: nat)
    requires n <= |chunks|
  {
    forall i :: 0 <= i < n ==> chunks[i].size in BINS
  }

  ghost predicate Sized(chunks: seq<Chunk>) {
    forall i :: 0 <= i < |chunks| ==> chunks[i].data != [] && chunks[i].size == OVERHEAD + |chunks[i].data|
  }

  /** The chunks hold the value, none is empty or larger than its allocation, all but the
      last fill a bin, and the charge grows by the sizes allocated. */
  method SplitValueIntoChunks(value: seq<Byte>, compression: CompressionType, charge: nat)
    returns (chunks: seq<Chunk>, charge': nat)
    ensures Contents(chunks) == value && Sized(chunks) && charge' == charge + Allocated(chunks)
    ensures chunks != [] ==> FillBins(chunks, |chunks| - 1)
    ensures compression.NoCompression? ==> |chunks| <= 1
  {
    var pos, left := 0, |value|;
    chunks, charge' := [], charge;
    while left > 0
      invariant 0 <= pos && left >= 0 && pos + left == |value|
      invariant Contents(chunks) == value[..pos] && Sized(chunks) && charge' == charge + Allocated(chunks)
      invariant left > 0 ==> FillBins(chunks, |chunks|)
      invariant chunks != [] ==> FillBins(chunks, |chunks| - 1)
      invariant compression.NoCompression? ==> |chunks| <= 1 && (left > 0 ==> chunks == [])
      decreases left
    {
      var size := ChunkSize(left, compression);
      var actual := size - OVERHEAD;
      var c := Chunk(value[pos..pos + actual], size);
      Append(chunks, c);
      assert value[..pos + actual] == value[..pos] + c.data;
      chunks := chunks + [c];
      pos, left, charge' := pos + actual, left - actual, charge' + size;
    }
    assert value[..pos] == value;
  }

  /** memcpy into a buffer, behind what it holds already. */
  method Copy(value: array<Byte>, pos: nat, data: seq<Byte>)
    requires pos + |data| <= value.Length
    modifies value
    ensures value[..pos + |data|] == old(value[..pos]) + data
  {
    for j := 0 to |data|
      invariant value[..pos] == old(value[..pos]) && value[pos..pos + j] == data[..j]
    {
      value[pos + j] := data[j];
      assert value[pos..pos + j + 1] == value[pos..pos + j] + [data[j]];
      assert data[..j + 1] == data[..j] + [data[j]];
    }
    assert value[..pos + |data|] == value[..pos] + value[pos..pos + |data|];
    assert data[..|data|] == data;
  }

  /** The value that the chunks hold, and its size. */
  method MergeChunksIntoValue(chunks: seq<Chunk>) returns (value: array<Byte>, charge: nat)
    ensures value[..] == Contents(chunks) && charge == |Contents(chunks)| && fresh(value)
  {
    charge := 0;
    for i := 0 to |chunks|
      invariant charge == |Contents(chunks[..i])|
    {
      assert chunks[..i + 1] == chunks[..i] + [chunks[i]];
      Append(chunks[..i], chunks[i]);
      charge := charge + |chunks[i].data|;
    }
    assert chunks[..|chunks|] == chunks;
    value := new Byte[charge](_ => 0);
    var pos := 0;
    for i := 0 to |chunks|
      invariant pos == |Contents(chunks[..i])| <= charge && value[..pos] == Contents(chunks[..i])
    {
      assert chunks[..i + 1] == chunks[..i] + [chunks[i]];
      Append(chunks[..i], chunks[i]);
      Prefix(chunks, i + 1);
      Copy(value, pos, chunks[i].data);
      pos := pos + |chunks[i].data|;
    }
    assert value[..pos] == value[..];
  }

  lemma {:induction false} Prefix(chunks: seq<Chunk>, n: nat)
    requires n <= |chunks|
    ensures |Contents(chunks[..n])| <= |Contents(chunks)|
    decreases |chunks| - n
  {
    if n < |chunks| {
      assert chunks[..n + 1] == chunks[..n] + [chunks[n]];
      Append(chunks[..n], chunks[n]);
      Prefix(chunks, n + 1);
    } else {
      assert chunks[..n] == chunks;
    }
  }

  /** Merging what was split gives the value back, of whatever compression type. */
  method SplitAndMerge(value: seq<Byte>, compression: CompressionType) returns (value': seq<Byte>, charge: nat)
    ensures value' == value && charge == |value|
  {
    var chunks, _ := SplitValueIntoChunks(value, compression, 0);
    var merged;
    merged, charge := MergeChunksIntoValue(chunks);
    value' := merged[..];
  }
}
