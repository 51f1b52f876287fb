/**
 * `SwappableBuffer<T>` with `T = float`: two physical regions of `size * numChannels`
 * samples laid out channel by channel, an index saying which region is the write region,
 * an append cursor (`writeBufferRemainingCapacity`) and the deferred-swap flag
 * `readerShouldSwapPtrs`. Locks are flags; each public call is one atomic step.
 */
module SwappableBuffer {
  import opened Types
  import opened Layout

  datatype Buffer = Buffer(
    size: nat,
    numChannels: nat,
    regions: seq<seq<real>>,
    writeIdx: nat,
    writeBufferRemainingCapacity: nat,
    readerShouldSwapPtrs: bool,
    readLocked: bool,
    writeLocked: bool)

  predicate Valid(b: Buffer) {
    && |b.regions| == 2
    && |b.regions[0]| == b.size * b.numChannels
    && |b.regions[1]| == b.size * b.numChannels
    && b.writeIdx <= 1
    && b.writeBufferRemainingCapacity <= b.size
  }

  function ReadIdx(b: Buffer): nat
    requires b.writeIdx <= 1
  {
    1 - b.writeIdx
  }

  function WriteRegion(b: Buffer): seq<real>
    requires Valid(b)
  {
    b.regions[b.writeIdx]
  }

  function ReadRegion(b: Buffer): seq<real>
    requires Valid(b)
  {
    b.regions[ReadIdx(b)]
  }

  /** The channel pointer table of a region: channel i starts at offset i * size. */
  function ChannelOffsets(b: Buffer): seq<nat> {
    OffsetTable(b.numChannels, b.size)
  }

  /** `swapPtrs`: exchanges the roles of the two regions without copying either. */
  function SwapPtrs(b: Buffer): (r: Buffer)
    requires Valid(b)
    ensures Valid(r)
    ensures WriteRegion(r) == ReadRegion(b) && ReadRegion(r) == WriteRegion(b)
    ensures r.regions == b.regions
  {
    b.(writeIdx := 1 - b.writeIdx)
  }

  /**
   * `reallocateChannels`: takes both locks (blocking, so both must be free), allocates two
   * regions of `size * newNumChannels` samples, zeroed or holding whatever the allocator
   * returned (`uninitialised`), makes region 0 the write region and empties the append
   * cursor. The deferred-swap flag is left as it was.
   */
  function ReallocateChannels(b: Buffer, newNumChannels: nat, initializeWithZeros: bool,
                              uninitialised: seq<seq<real>>): (r: Buffer)
    requires !b.readLocked && !b.writeLocked
    requires !initializeWithZeros ==>
               |uninitialised| == 2 && forall k :: 0 <= k < 2 ==> |uninitialised[k]| == b.size * newNumChannels
    ensures Valid(r)
    ensures r.numChannels == newNumChannels && r.size == b.size
    ensures |WriteRegion(r)| == |ReadRegion(r)| == b.size * newNumChannels
    ensures IsOffsetTable(ChannelOffsets(r), newNumChannels, b.size)
    ensures r.writeIdx == 0 && ReadIdx(r) == 1
    ensures r.writeBufferRemainingCapacity == b.size
    ensures initializeWithZeros ==> WriteRegion(r) == ReadRegion(r) == Zeros(b.size * newNumChannels)
    ensures r.readerShouldSwapPtrs == b.readerShouldSwapPtrs
    ensures !r.readLocked && !r.writeLocked
  {
    var n := b.size * newNumChannels;
    var regions := if initializeWithZeros then [Zeros(n), Zeros(n)] else uninitialised;
    b.(numChannels := newNumChannels, regions := regions, writeIdx := 0, writeBufferRemainingCapacity := b.size)
  }

  /**
   * The constructor: a buffer of `size` samples per channel. By default it has no channel
   * and is not zeroed, so both regions start empty.
   */
  function Create(size: nat, initialNumChannels: nat := 0, initializeWithZeros: bool := false,
                  uninitialised: seq<seq<real>> := [[], []]): (r: Buffer)
    requires !initializeWithZeros ==>
               |uninitialised| == 2 && forall k :: 0 <= k < 2 ==> |uninitialised[k]| == size * initialNumChannels
    ensures Valid(r) && r.size == size && r.numChannels == initialNumChannels
    ensures !r.readerShouldSwapPtrs && !r.readLocked && !r.writeLocked
    ensures r.writeBufferRemainingCapacity == size
  {
    ReallocateChannels(Buffer(size, 0, [[], []], 0, size, false, false, false),
                       initialNumChannels, initializeWithZeros, uninitialised)
  }

  /** With the default arguments, the new buffer has no channel and two empty regions. */
  lemma CreateByDefault(size: nat)
    ensures var b := Create(size);
            b.numChannels == 0 && WriteRegion(b) == [] && ReadRegion(b) == [] && b.writeIdx == 0
  {
  }

  function AddChannels(b: Buffer, numChannelsToAdd: nat): (r: Buffer)
    requires !b.readLocked && !b.writeLocked
    ensures Valid(r) && r.numChannels == b.numChannels + numChannelsToAdd
    ensures WriteRegion(r) == ReadRegion(r) == Zeros(b.size * r.numChannels)
  {
    ReallocateChannels(b, b.numChannels + numChannelsToAdd, true, [])
  }

  /** `deleteChannels` asserts that no more channels are deleted than exist. */
  function DeleteChannels(b: Buffer, numChannelsToDelete: nat): (r: Buffer)
    requires !b.readLocked && !b.writeLocked
    requires numChannelsToDelete <= b.numChannels
    ensures Valid(r) && r.numChannels == b.numChannels - numChannelsToDelete
    ensures WriteRegion(r) == ReadRegion(r) == Zeros(b.size * r.numChannels)
  {
    ReallocateChannels(b, b.numChannels - numChannelsToDelete, true, [])
  }

  function SetNumChannels(b: Buffer, numChannelsToAllocate: nat): (r: Buffer)
    requires !b.readLocked && !b.writeLocked
    ensures Valid(r) && r.numChannels == numChannelsToAllocate
    ensures WriteRegion(r) == ReadRegion(r) == Zeros(b.size * numChannelsToAllocate)
  {
    ReallocateChannels(b, numChannelsToAllocate, true, [])
  }

  /**
   * Makes the finished write region the read region now, or leaves that to the reader.
   * Both writers clear the flag before they get here.
   */
  function SwapOrDefer(b: Buffer): (r: Buffer)
    requires Valid(b) && !b.readerShouldSwapPtrs
    ensures Valid(r) && r.regions == b.regions
    ensures !b.readLocked ==> ReadRegion(r) == WriteRegion(b) && !r.readerShouldSwapPtrs && r.writeIdx != b.writeIdx
    ensures b.readLocked ==> r.readerShouldSwapPtrs && r.writeIdx == b.writeIdx
    ensures r.readLocked == b.readLocked
  {
    if !b.readLocked then SwapPtrs(b) else b.(readerShouldSwapPtrs := true)
  }

  /** Each of the first `numChannels` input channels holds at least `count` samples. */
  ghost predicate Covers(data: seq<seq<real>>, numChannels: nat, count: nat) {
    SourceCovers(data, numChannels, 0, count)
  }

  /** Copies `n` samples of every channel of `data` to the start of its channel and zero-fills the rest. */
  function FillChannels(region: seq<real>, size: nat, numChannels: nat, data: seq<seq<real>>, n: nat): (r: seq<real>)
    requires numChannels * size <= |region| && n <= size
    requires Covers(data, numChannels, n)
    ensures |r| == |region|
    ensures forall ch: nat :: ch < numChannels ==>
              HasChannel(r, size, ch) && Chan(r, size, ch) == data[ch][..n] + Zeros(size - n)
  {
    var zeros := seq(numChannels, _ => Zeros(size - n));
    var filled := CopyIntoChannels(region, size, numChannels, 0, data, 0, n);
    var padded := CopyIntoChannels(filled, size, numChannels, n, zeros, 0, size - n);
    forall ch: nat | ch < numChannels
      ensures HasChannel(padded, size, ch) && Chan(padded, size, ch) == data[ch][..n] + Zeros(size - n)
    {
      FilledChannel(region, filled, padded, size, data[ch], zeros[ch], n, Chan(region, size, ch),
                    Chan(filled, size, ch), Chan(padded, size, ch));
    }
    padded
  }

  /** One channel of `FillChannels`: the copied samples, then the zeros. */
  lemma FilledChannel(region: seq<real>, filled: seq<real>, padded: seq<real>, size: nat,
                      src: seq<real>, zeros: seq<real>, n: nat,
                      before: seq<real>, afterCopy: seq<real>, afterPad: seq<real>)
    requires n <= size && n <= |src| && zeros == Zeros(size - n)
    requires |before| == size
    requires afterCopy == src[0..n] + before[n..]
    requires afterPad == afterCopy[..n] + zeros[0 .. size - n] + afterCopy[n + (size - n)..]
    ensures afterPad == src[..n] + Zeros(size - n)
  {
    assert afterCopy[..n] == src[..n];
    assert zeros[0 .. size - n] == Zeros(size - n);
  }

  /**
   * `writeNewBuffer`: ignored while the write lock is taken. Otherwise copies `n` samples
   * per channel, zero-fills the rest of every channel, swaps at once when the reader is
   * idle and defers the swap otherwise, empties the append cursor and releases the lock.
   */
  function WriteNewBuffer(b: Buffer, data: seq<seq<real>>, n: nat): (r: Buffer)
    requires Valid(b)
    requires n <= b.size
    requires Covers(data, b.numChannels, n)
    ensures Valid(r) && r.size == b.size && r.numChannels == b.numChannels
    ensures b.writeLocked ==> r == b
    ensures !b.writeLocked ==>
              && (forall ch: nat :: ch < b.numChannels ==>
                    HasChannel(NewestRegion(r), b.size, ch) &&
                    Chan(NewestRegion(r), b.size, ch) == data[ch][..n] + Zeros(b.size - n))
              && (r.readerShouldSwapPtrs <==> b.readLocked)
              && (b.readLocked ==> ReadRegion(r) == ReadRegion(b))
              && r.writeBufferRemainingCapacity == b.size
              && !r.writeLocked && r.readLocked == b.readLocked
  {
    if b.writeLocked then b
    else
      var cleared := b.(readerShouldSwapPtrs := false);
      MulMono(b.numChannels, b.numChannels, b.size);
      var padded := FillChannels(WriteRegion(cleared), b.size, b.numChannels, data, n);
      var written := cleared.(regions := cleared.regions[b.writeIdx := padded]);
      var swapped := SwapOrDefer(written);
      swapped.(writeBufferRemainingCapacity := b.size)
  }

  /**
   * The region holding the most recently completed write: the read region after an
   * immediate swap, the write region while the swap is deferred.
   */
  function NewestRegion(b: Buffer): seq<real>
    requires Valid(b)
  {
    if b.readerShouldSwapPtrs then WriteRegion(b) else ReadRegion(b)
  }

  /**
   * `after` is `before` with `data[ch][..count]` placed at position `start` of every
   * channel `ch` below `numChannels`.
   */
  ghost predicate ChannelsAppended(after: seq<real>, before: seq<real>, size: nat, numChannels: nat,
                                   start: nat, data: seq<seq<real>>, count: nat) {
    forall ch: nat :: ch < numChannels ==>
      && start + count <= size && ch < |data| && count <= |data[ch]|
      && HasChannel(before, size, ch) && HasChannel(after, size, ch)
      && Chan(after, size, ch) == Chan(before, size, ch)[..start] + data[ch][..count] + Chan(before, size, ch)[start + count..]
  }

  /**
   * `appendToWriteBuffer`: ignored (returning false) while the write lock is taken.
   * Otherwise copies `min(numElementsAvailable, remaining)` samples per channel to position
   * `size - remaining`, discards the surplus, and returns true exactly when the region
   * became full; a full region is swapped or handed to the reader and the cursor emptied.
   */
  function AppendToWriteBuffer(b: Buffer, data: seq<seq<real>>, numElementsAvailable: nat): (r: (Buffer, bool))
    requires Valid(b)
    requires Covers(data, b.numChannels, numElementsAvailable)
    ensures Valid(r.0) && r.0.size == b.size && r.0.numChannels == b.numChannels
    ensures b.writeLocked ==> r == (b, false)
    ensures !b.writeLocked ==>
              && (r.1 <==> numElementsAvailable >= b.writeBufferRemainingCapacity)
              && !r.0.writeLocked && r.0.readLocked == b.readLocked
    ensures !b.writeLocked && !r.1 ==>
              && ChannelsAppended(WriteRegion(r.0), WriteRegion(b), b.size, b.numChannels,
                                  b.size - b.writeBufferRemainingCapacity, data, numElementsAvailable)
              && r.0.writeIdx == b.writeIdx && !r.0.readerShouldSwapPtrs
              && r.0.writeBufferRemainingCapacity == b.writeBufferRemainingCapacity - numElementsAvailable
              && ReadRegion(r.0) == ReadRegion(b)
    ensures !b.writeLocked && r.1 ==>
              && ChannelsAppended(NewestRegion(r.0), WriteRegion(b), b.size, b.numChannels,
                                  b.size - b.writeBufferRemainingCapacity, data, b.writeBufferRemainingCapacity)
              && r.0.writeBufferRemainingCapacity == b.size
              && (r.0.readerShouldSwapPtrs <==> b.readLocked)
              && (b.readLocked ==> ReadRegion(r.0) == ReadRegion(b))
  {
    if b.writeLocked then (b, false)
    else
      var start := b.size - b.writeBufferRemainingCapacity;
      var count := Min(numElementsAvailable, b.writeBufferRemainingCapacity);
      var filled := AppendChannels(WriteRegion(b), b.size, b.numChannels, start, data, count);
      var written := b.(regions := b.regions[b.writeIdx := filled], readerShouldSwapPtrs := false,
                        writeBufferRemainingCapacity := b.writeBufferRemainingCapacity - count);
      assert WriteRegion(written) == filled;
      if written.writeBufferRemainingCapacity == 0 then
        (SwapOrDefer(written).(writeBufferRemainingCapacity := b.size), true)
      else
        (written, false)
  }

  /** The per-channel copy of an append, into a region of `numChannels` channels. */
  function AppendChannels(region: seq<real>, size: nat, numChannels: nat, start: nat,
                          data: seq<seq<real>>, count: nat): (r: seq<real>)
    requires |region| == size * numChannels
    requires start + count <= size
    requires Covers(data, numChannels, count)
    ensures |r| == |region|
    ensures ChannelsAppended(r, region, size, numChannels, start, data, count)
  {
    var r := CopyIntoChannels(region, size, numChannels, start, data, 0, count);
    AllChannelsInBounds(r, size, numChannels);
    assert forall ch: nat :: ch < numChannels ==> data[ch][0..count] == data[ch][..count];
    r
  }

  /** The read region as seen through `ScopedReadBufferPtr`: one sequence of samples per channel. */
  function ReadChannels(b: Buffer): (r: seq<seq<real>>)
    requires Valid(b)
    ensures |r| == b.numChannels
    ensures forall ch: nat :: ch < b.numChannels ==> HasChannel(ReadRegion(b), b.size, ch) && r[ch] == Chan(ReadRegion(b), b.size, ch)
  {
    AllChannelsInBounds(ReadRegion(b), b.size, b.numChannels);
    seq(b.numChannels, ch requires 0 <= ch < b.numChannels => Chan(ReadRegion(b), b.size, ch))
  }

  /** `getReadBuffer`: takes the read lock (blocking, so it must be free) and exposes the read region. */
  function GetReadBuffer(b: Buffer): (r: (Buffer, seq<seq<real>>))
    requires Valid(b) && !b.readLocked
    ensures r.0 == b.(readLocked := true) && Valid(r.0)
    ensures r.1 == ReadChannels(b)
  {
    (b.(readLocked := true), ReadChannels(b))
  }

  /**
   * `~ScopedReadBufferPtr` as written: performs a deferred swap but does not clear
   * `readerShouldSwapPtrs`, then releases the read lock.
   */
  function ReleaseReadBuffer(b: Buffer): (r: Buffer)
    requires Valid(b) && b.readLocked
    ensures Valid(r) && !r.readLocked && r.regions == b.regions
    ensures r.readerShouldSwapPtrs == b.readerShouldSwapPtrs
    ensures b.readerShouldSwapPtrs ==> ReadRegion(r) == WriteRegion(b) && WriteRegion(r) == ReadRegion(b)
    ensures !b.readerShouldSwapPtrs ==> r == b.(readLocked := false)
  {
    var swapped := if b.readerShouldSwapPtrs then SwapPtrs(b) else b;
    swapped.(readLocked := false)
  }

  /** The release as `DataCollector::finishedReading` does it: the deferred swap also clears the flag. */
  function ReleaseReadBufferClearing(b: Buffer): (r: Buffer)
    requires Valid(b) && b.readLocked
    ensures Valid(r) && !r.readLocked && !r.readerShouldSwapPtrs && r.regions == b.regions
    ensures ReadRegion(r) == NewestRegion(b)
  {
    var swapped := if b.readerShouldSwapPtrs then SwapPtrs(b) else b;
    swapped.(readLocked := false, readerShouldSwapPtrs := false)
  }

  /**
   * With the clearing release, reading again without an intervening write shows the same
   * samples: the newest completed block stays the read region.
   */
  lemma RereadWithoutWriteIsStable(b: Buffer)
    requires Valid(b) && b.readLocked
    ensures var first := GetReadBuffer(ReleaseReadBufferClearing(b));
            var b3 := ReleaseReadBufferClearing(first.0);
            first.1 == GetReadBuffer(b3).1 && NewestRegion(b3) == NewestRegion(b)
  {
  }

  /**
   * As written, the flag survives the release, so the next release swaps back: a block
   * written during a read is seen by the next read, and the read after that is back to
   * the block from before the write, although nothing was written in between.
   */
  lemma StaleBlockOnSecondRead(b: Buffer, data: seq<seq<real>>)
    requires Valid(b) && !b.readLocked && !b.writeLocked
    requires Covers(data, b.numChannels, b.size)
    ensures var b1 := GetReadBuffer(b).0;
            var b3 := ReleaseReadBuffer(WriteNewBuffer(b1, data, b.size));
            var first := GetReadBuffer(b3);
            var second := GetReadBuffer(ReleaseReadBuffer(first.0));
            && (forall ch: nat :: ch < b.numChannels ==> first.1[ch] == data[ch][..b.size])
            && second.1 == ReadChannels(b)
  {
    var b1 := GetReadBuffer(b).0;
    var b2 := WriteNewBuffer(b1, data, b.size);
    assert b2.readerShouldSwapPtrs && ReadRegion(b2) == ReadRegion(b);
    forall ch: nat | ch < b.numChannels ensures Chan(WriteRegion(b2), b.size, ch) == data[ch][..b.size] {
      assert Zeros(0) == [];
    }
  }

  /**
   * With the clearing release, a block written during a read is seen by the next read and
   * by every read after it until the next write.
   */
  lemma DeferredWriteStaysVisible(b: Buffer, data: seq<seq<real>>)
    requires Valid(b) && !b.readLocked && !b.writeLocked
    requires Covers(data, b.numChannels, b.size)
    ensures var b1 := GetReadBuffer(b).0;
            var b3 := ReleaseReadBufferClearing(WriteNewBuffer(b1, data, b.size));
            var first := GetReadBuffer(b3);
            var second := GetReadBuffer(ReleaseReadBufferClearing(first.0));
            && (forall ch: nat :: ch < b.numChannels ==> first.1[ch] == data[ch][..b.size])
            && second.1 == first.1
  {
    var b1 := GetReadBuffer(b).0;
    var b2 := WriteNewBuffer(b1, data, b.size);
    assert b2.readerShouldSwapPtrs;
    forall ch: nat | ch < b.numChannels ensures Chan(WriteRegion(b2), b.size, ch) == data[ch][..b.size] {
      assert Zeros(0) == [];
    }
    RereadWithoutWriteIsStable(b2);
  }
}
