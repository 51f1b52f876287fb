/**
 * The two-block handoff protocol of `DataCollector`: a producer fills the write block and
 * hands it to a consumer by exchanging it with the read block.
 *
 * Each public call is one atomic step. The two `std::mutex` objects are boolean flags:
 * `try_lock` is a test of the flag, the blocking `lock()` of `startReading` is a
 * precondition. A memory block is a sequence of 4-byte float slots; sizes are counted in
 * slots. Every `dataBlockReady(sinkIdx)` call is appended to the `ready` log.
 */
module DataCollector {

  type Block = seq<real>

  datatype Collector = Collector(
    id: string,
    readBlock: Block,
    writeBlock: Block,
    writeLocked: bool,
    readLocked: bool,
    readerShouldSwapBlocks: bool,
    expectedBlockSize: nat,
    sinkIdx: int,
    ready: seq<int>)

  /** A freshly constructed collector: two empty blocks, nothing locked, not attached to a sink. */
  function Create(id: string): (c: Collector)
    ensures c.id == id && Idle(c) && Inv(c)
    ensures c.readBlock == [] && c.writeBlock == [] && c.expectedBlockSize == 0
    ensures c.sinkIdx == -1 && c.ready == []
  {
    Collector(id, [], [], false, false, false, 0, -1, [])
  }

  /** A deferred swap is only ever pending while the reader holds its block and the write lock is still taken. */
  predicate Inv(c: Collector) {
    c.readerShouldSwapBlocks ==> c.writeLocked && c.readLocked
  }

  /** No role holds a block and no swap is pending. */
  predicate Idle(c: Collector) {
    !c.writeLocked && !c.readLocked && !c.readerShouldSwapBlocks
  }

  /** The producer owns the write block: it took the write lock and has not finished yet. */
  predicate WriterHolds(c: Collector) {
    c.writeLocked && !c.readerShouldSwapBlocks
  }

  /**
   * The most recently finished block: the one waiting for a deferred swap while the flag is
   * set, the read block otherwise.
   */
  function NewestBlock(c: Collector): Block {
    if c.readerShouldSwapBlocks then c.writeBlock else c.readBlock
  }

  /** `resizeMemoryBlock`: only records the size the blocks should get before their next use. */
  function ResizeMemoryBlock(c: Collector, newSize: nat): (r: Collector)
    ensures r.expectedBlockSize == newSize
    ensures r.readBlock == c.readBlock && r.writeBlock == c.writeBlock
    ensures r.writeLocked == c.writeLocked && r.readLocked == c.readLocked
    ensures r.readerShouldSwapBlocks == c.readerShouldSwapBlocks && r.ready == c.ready
    ensures r.id == c.id && r.sinkIdx == c.sinkIdx
  {
    c.(expectedBlockSize := newSize)
  }

  /**
   * `startWriting`: hands out the write block and takes the write lock if it is free;
   * otherwise hands out nothing and leaves the collector unchanged.
   */
  function StartWriting(c: Collector): (r: (Collector, bool))
    ensures r.1 <==> !c.writeLocked
    ensures r.1 ==> r.0 == c.(writeLocked := true)
    ensures !r.1 ==> r.0 == c
  {
    if c.writeLocked then (c, false) else (c.(writeLocked := true), true)
  }

  /** The producer writes through the pointer it got from `startWriting`; writes never resize the block. */
  function WriteBlock(c: Collector, data: Block): (r: Collector)
    requires WriterHolds(c)
    requires |data| == |c.writeBlock|
    ensures r.writeBlock == data && WriterHolds(r)
    ensures r == c.(writeBlock := data)
  {
    c.(writeBlock := data)
  }

  /**
   * `finishedWriting`. With the read lock free the blocks are exchanged, both locks are
   * free afterwards and `dataBlockReady(sinkIdx)` fires once. During a read only the
   * deferred-swap flag is set and the write lock stays taken.
   */
  function FinishedWriting(c: Collector): (r: Collector)
    requires WriterHolds(c)
    ensures !c.readLocked ==>
              && r.readBlock == c.writeBlock && r.writeBlock == c.readBlock
              && !r.writeLocked && !r.readLocked && !r.readerShouldSwapBlocks
              && r.ready == c.ready + [c.sinkIdx]
    ensures c.readLocked ==>
              && r.readerShouldSwapBlocks && r.writeLocked && r.readLocked
              && r.readBlock == c.readBlock && r.writeBlock == c.writeBlock
              && r.ready == c.ready
    ensures multiset{r.readBlock, r.writeBlock} == multiset{c.readBlock, c.writeBlock}
    ensures NewestBlock(r) == c.writeBlock
    ensures r.expectedBlockSize == c.expectedBlockSize && r.id == c.id && r.sinkIdx == c.sinkIdx
    ensures Inv(r)
  {
    if !c.readLocked then
      c.(readBlock := c.writeBlock, writeBlock := c.readBlock, writeLocked := false,
         ready := c.ready + [c.sinkIdx])
    else
      c.(readerShouldSwapBlocks := true)
  }

  /** `startReading`: the blocking lock becomes a precondition; returns the read block. */
  function StartReading(c: Collector): (r: (Collector, Block))
    requires !c.readLocked
    ensures r.0 == c.(readLocked := true)
    ensures r.1 == c.readBlock
  {
    (c.(readLocked := true), c.readBlock)
  }

  /**
   * `MemoryBlock::setSize(n, true)`: keeps the first `n` slots (or all of them) and zeroes
   * the slots it adds.
   */
  function SetSize(b: Block, n: nat): (r: Block)
    ensures |r| == n
    ensures forall i :: 0 <= i < n && i < |b| ==> r[i] == b[i]
    ensures forall i :: |b| <= i < n ==> r[i] == 0.0
  {
    if n <= |b| then b[..n] else b + seq(n - |b|, _ => 0.0)
  }

  /** The read block as `finishedReading` leaves it before any deferred swap. */
  function Resized(c: Collector): (b: Block)
    ensures |b| == c.expectedBlockSize
    ensures |c.readBlock| == c.expectedBlockSize ==> b == c.readBlock
  {
    if |c.readBlock| != c.expectedBlockSize then SetSize(c.readBlock, c.expectedBlockSize) else c.readBlock
  }

  /**
   * `finishedReading`: first brings the read block to the expected size, then performs a
   * pending swap (releasing the write lock, clearing the flag and notifying once) and
   * finally releases the read lock.
   */
  function FinishedReading(c: Collector): (r: Collector)
    requires c.readLocked
    ensures !r.readLocked && !r.readerShouldSwapBlocks && Inv(r)
    ensures c.readerShouldSwapBlocks ==>
              && r.writeBlock == Resized(c) && r.readBlock == c.writeBlock
              && !r.writeLocked && r.ready == c.ready + [c.sinkIdx]
    ensures !c.readerShouldSwapBlocks ==>
              && r.readBlock == Resized(c) && r.writeBlock == c.writeBlock
              && r.writeLocked == c.writeLocked && r.ready == c.ready
    ensures multiset{r.readBlock, r.writeBlock} == multiset{Resized(c), c.writeBlock}
    ensures r.expectedBlockSize == c.expectedBlockSize && r.id == c.id && r.sinkIdx == c.sinkIdx
  {
    var c1 := c.(readBlock := Resized(c));
    var c2 := if c1.readerShouldSwapBlocks then
                c1.(readBlock := c1.writeBlock, writeBlock := c1.readBlock, writeLocked := false,
                    readerShouldSwapBlocks := false, ready := c1.ready + [c1.sinkIdx])
              else c1;
    c2.(readLocked := false)
  }
}
