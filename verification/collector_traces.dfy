/**
 * Sequences of producer and consumer calls on one `DataCollector`, and what the swap
 * protocol guarantees over them. A call whose precondition does not hold takes no step:
 * `startReading` would block, and the other calls would break the calling convention.
 */
module CollectorTraces {
  import opened DataCollector

  datatype Call =
    | StartWritingCall
    | WriteCall(data: Block)
    | FinishedWritingCall
    | StartReadingCall
    | FinishedReadingCall
    | ResizeCall(newSize: nat)

  predicate Enabled(c: Collector, call: Call) {
    match call
    case StartWritingCall => true
    case WriteCall(data) => WriterHolds(c) && |data| == |c.writeBlock|
    case FinishedWritingCall => WriterHolds(c)
    case StartReadingCall => !c.readLocked
    case FinishedReadingCall => c.readLocked
    case ResizeCall(_) => true
  }

  function Step(c: Collector, call: Call): Collector {
    if !Enabled(c, call) then c
    else match call
      case StartWritingCall => StartWriting(c).0
      case WriteCall(data) => WriteBlock(c, data)
      case FinishedWritingCall => FinishedWriting(c)
      case StartReadingCall => StartReading(c).0
      case FinishedReadingCall => FinishedReading(c)
      case ResizeCall(n) => ResizeMemoryBlock(c, n)
  }

  function Run(c: Collector, calls: seq<Call>): Collector
    decreases |calls|
  {
    if calls == [] then c else Run(Step(c, calls[0]), calls[1..])
  }

  predicate NoFinishedReading(calls: seq<Call>) {
    forall i :: 0 <= i < |calls| ==> !calls[i].FinishedReadingCall?
  }

  /** Every step keeps the deferred-swap flag tied to both locks being taken. */
  lemma StepKeepsInv(c: Collector, call: Call)
    requires Inv(c)
    ensures Inv(Step(c, call))
  {
  }

  lemma {:induction false} RunKeepsInv(c: Collector, calls: seq<Call>)
    requires Inv(c)
    ensures Inv(Run(c, calls))
    decreases |calls|
  {
    if calls != [] {
      StepKeepsInv(c, calls[0]);
      RunKeepsInv(Step(c, calls[0]), calls[1..]);
    }
  }

  /**
   * Once `finishedWriting` has deferred its swap, no call other than `finishedReading`
   * moves the collector: both blocks stay where they are, the write lock stays taken and
   * every `startWriting` in between fails.
   */
  lemma {:induction false} DeferredSwapBlocksWriters(c: Collector, calls: seq<Call>)
    requires Inv(c) && c.readerShouldSwapBlocks
    requires NoFinishedReading(calls)
    ensures var r := Run(c, calls);
            && r.readerShouldSwapBlocks && r.writeLocked && r.readLocked
            && r.readBlock == c.readBlock && r.writeBlock == c.writeBlock && r.ready == c.ready
            && !StartWriting(r).1
    decreases |calls|
  {
    if calls != [] {
      assert !calls[0].FinishedReadingCall?;
      var next := Step(c, calls[0]);
      assert next.readerShouldSwapBlocks && next.writeLocked && next.readLocked;
      assert next.readBlock == c.readBlock && next.writeBlock == c.writeBlock && next.ready == c.ready;
      assert NoFinishedReading(calls[1..]) by {
        forall i | 0 <= i < |calls[1..]| ensures !calls[1..][i].FinishedReadingCall? {
          assert calls[1..][i] == calls[i + 1];
        }
      }
      DeferredSwapBlocksWriters(next, calls[1..]);
    }
  }

  /** The consumer's release completes the deferred swap, after which the producer can write again. */
  lemma DeferredSwapCompletesOnRelease(c: Collector)
    requires Inv(c) && c.readerShouldSwapBlocks
    ensures var r := FinishedReading(c);
            && r.readBlock == c.writeBlock && !r.writeLocked && !r.readerShouldSwapBlocks
            && StartWriting(r).1 && r.ready == c.ready + [c.sinkIdx]
  {
  }

  /**
   * Block sizes change only in `finishedReading`: without it the pair of block sizes is
   * the same before and after any sequence of calls.
   */
  lemma {:induction false} OnlyFinishedReadingResizes(c: Collector, calls: seq<Call>)
    requires NoFinishedReading(calls)
    ensures var r := Run(c, calls);
            multiset{|r.readBlock|, |r.writeBlock|} == multiset{|c.readBlock|, |c.writeBlock|}
    decreases |calls|
  {
    if calls != [] {
      assert !calls[0].FinishedReadingCall?;
      var next := Step(c, calls[0]);
      StepKeepsSizes(c, calls[0]);
      NoFinishedReadingTail(calls);
      OnlyFinishedReadingResizes(next, calls[1..]);
    }
  }

  /** A call other than `finishedReading` keeps the two block sizes, possibly exchanged. */
  lemma StepKeepsSizes(c: Collector, call: Call)
    requires !call.FinishedReadingCall?
    ensures var r := Step(c, call);
            multiset{|r.readBlock|, |r.writeBlock|} == multiset{|c.readBlock|, |c.writeBlock|}
  {
  }

  lemma NoFinishedReadingTail(calls: seq<Call>)
    requires calls != [] && NoFinishedReading(calls)
    ensures NoFinishedReading(calls[1..])
  {
    forall i | 0 <= i < |calls[1..]| ensures !calls[1..][i].FinishedReadingCall? {
      assert calls[1..][i] == calls[i + 1];
    }
  }

  /** Until the consumer first finishes a read, every block a fresh collector hands out is empty. */
  lemma EmptyUntilFirstFinishedReading(id: string, calls: seq<Call>)
    requires NoFinishedReading(calls)
    ensures var r := Run(Create(id), calls);
            |r.readBlock| == 0 && |r.writeBlock| == 0
  {
    OnlyFinishedReadingResizes(Create(id), calls);
    var r := Run(Create(id), calls);
    assert |r.readBlock| in multiset{0, 0};
    assert |r.writeBlock| in multiset{0, 0};
  }

  /**
   * The two blocks are only ever permuted: apart from the producer's own writes and the
   * consumer's resize, no call creates, copies or drops block contents.
   */
  lemma StepPermutesBlocks(c: Collector, call: Call)
    requires !call.WriteCall?
    requires call.FinishedReadingCall? ==> |c.readBlock| == c.expectedBlockSize
    ensures var r := Step(c, call);
            multiset{r.readBlock, r.writeBlock} == multiset{c.readBlock, c.writeBlock}
  {
  }

  /**
   * Round trip: with neither role active, what the producer writes into the block it gets
   * from `startWriting` is exactly what the next `startReading` returns, and the sink is
   * notified once.
   */
  lemma WriteThenReadRoundTrip(c: Collector, data: Block)
    requires Idle(c)
    requires |data| == |c.writeBlock|
    ensures var (c1, ok) := StartWriting(c);
            && ok
            && var c2 := FinishedWriting(WriteBlock(c1, data));
               && StartReading(c2).1 == data
               && c2.ready == c.ready + [c.sinkIdx]
  {
  }

  /**
   * A block finished while the consumer is reading is the one the consumer gets on its
   * next read, once it has released the current one.
   */
  lemma DeferredWriteIsReadNext(c: Collector, data: Block)
    requires c.readLocked && !c.writeLocked && Inv(c)
    requires |data| == |c.writeBlock|
    ensures var (c1, ok) := StartWriting(c);
            && ok
            && var c2 := FinishedWriting(WriteBlock(c1, data));
               && c2.readerShouldSwapBlocks && c2.ready == c.ready
               && var c3 := FinishedReading(c2);
                  && StartReading(c3).1 == data
                  && c3.ready == c.ready + [c.sinkIdx]
  {
  }
}
