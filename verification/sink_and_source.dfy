/**
 * `LocalDataSinkAndSource`: pairs every data collector with the visualization target of
 * the same identifier and routes reads and settings between them through stored indices.
 *
 * Targets are registered first, then the collector table is sized, then collectors are
 * registered. Collectors are referred to by handles (indices into the caller's list of
 * collectors); a target is the identifier it was created with plus the `targetIdx` the
 * sink assigned to it.
 */
module SinkAndSource {
  import opened Types
  import DC = DataCollector

  datatype Target = Target(id: string, targetIdx: int)

  datatype Sink = Sink(
    targetIdentifiers: seq<string>,
    targets: seq<Target>,
    collectors: seq<Option<nat>>)

  /** A sink before any registration. */
  predicate Fresh(s: Sink) {
    s.targetIdentifiers == [] && s.targets == [] && s.collectors == []
  }

  function Empty(): (s: Sink)
    ensures Fresh(s)
  {
    Sink([], [], [])
  }

  /** `StringArray::indexOf`: the first index holding `id`, or -1 when there is none. */
  function IndexOf(ids: seq<string>, id: string): (r: int)
    ensures -1 <= r < |ids|
    ensures r == -1 <==> id !in ids
    ensures r >= 0 ==> ids[r] == id && forall j :: 0 <= j < r ==> ids[j] != id
    decreases |ids|
  {
    if ids == [] then -1
    else if ids[0] == id then 0
    else
      var rest := IndexOf(ids[1..], id);
      if rest == -1 then -1 else rest + 1
  }

  /** An index below the first occurrence is unaffected by what follows: appending keeps the first index. */
  lemma {:induction false} IndexOfPrefix(ids: seq<string>, more: seq<string>, id: string)
    requires id in ids
    ensures IndexOf(ids + more, id) == IndexOf(ids, id)
  {
    var i := IndexOf(ids, id);
    var k := IndexOf(ids + more, id);
    assert (ids + more)[i] == id;
    assert k <= i;
    assert k >= 0 && ids[k] == (ids + more)[k];
  }

  /**
   * `registerVisualizationTarget`: appends the identifier and gives the target the first
   * index holding it, so targets with equal identifiers share an index.
   */
  function RegisterVisualizationTarget(s: Sink, id: string): (r: (Sink, Target))
    ensures r.0.targetIdentifiers == s.targetIdentifiers + [id]
    ensures r.0.targets == s.targets + [r.1] && r.0.collectors == s.collectors
    ensures r.1 == Target(id, IndexOf(s.targetIdentifiers + [id], id))
    ensures 0 <= r.1.targetIdx <= |s.targetIdentifiers|
    ensures id !in s.targetIdentifiers ==> r.1.targetIdx == |s.targetIdentifiers|
  {
    var ids := s.targetIdentifiers + [id];
    var t := Target(id, IndexOf(ids, id));
    assert ids[|s.targetIdentifiers|] == id;
    (s.(targetIdentifiers := ids, targets := s.targets + [t]), t)
  }

  /** `Array::resize`: drops entries beyond `n` or pads with empty entries up to `n`. */
  function Resize(collectors: seq<Option<nat>>, n: nat): (r: seq<Option<nat>>)
    ensures |r| == n
    ensures forall i :: 0 <= i < n && i < |collectors| ==> r[i] == collectors[i]
    ensures forall i :: |collectors| <= i < n ==> r[i] == None
  {
    if n <= |collectors| then collectors[..n] else collectors + seq(n - |collectors|, _ => None)
  }

  /** `finishedRegisteringTargets`: one collector slot per registered target identifier. */
  function FinishedRegisteringTargets(s: Sink): (r: Sink)
    ensures |r.collectors| == |s.targetIdentifiers|
    ensures r.targetIdentifiers == s.targetIdentifiers && r.targets == s.targets
    ensures forall i :: 0 <= i < |r.collectors| && i < |s.collectors| ==> r.collectors[i] == s.collectors[i]
    ensures forall i :: |s.collectors| <= i < |r.collectors| ==> r.collectors[i] == None
  {
    s.(collectors := Resize(s.collectors, |s.targetIdentifiers|))
  }

  /** `Array::set`: replaces the entry at `i`, or appends when `i` is past the end. */
  function SetOrAppend(collectors: seq<Option<nat>>, i: nat, handle: nat): (r: seq<Option<nat>>)
    ensures i < |collectors| ==> |r| == |collectors| && r[i] == Some(handle)
    ensures i < |collectors| ==> forall j :: 0 <= j < |r| && j != i ==> r[j] == collectors[j]
    ensures i >= |collectors| ==> r == collectors + [Some(handle)]
  {
    if i < |collectors| then collectors[i := Some(handle)] else collectors + [Some(handle)]
  }

  /**
   * `registerDataCollector`: fails, changing nothing, when no target has the collector's
   * identifier. Otherwise the collector learns the matching index and takes that slot of
   * the table, replacing any collector registered there before.
   */
  function RegisterDataCollector(s: Sink, c: DC.Collector, handle: nat): (r: Result<(Sink, DC.Collector)>)
    ensures r.Fail? <==> c.id !in s.targetIdentifiers
    ensures r.Fail? ==> r.message == "Failed to find target with identifier " + c.id
    ensures r.Ok? ==>
              && r.value.1 == c.(sinkIdx := IndexOf(s.targetIdentifiers, c.id))
              && 0 <= r.value.1.sinkIdx < |s.targetIdentifiers| && s.targetIdentifiers[r.value.1.sinkIdx] == c.id
              && r.value.0.targetIdentifiers == s.targetIdentifiers && r.value.0.targets == s.targets
              && r.value.0.collectors == SetOrAppend(s.collectors, r.value.1.sinkIdx, handle)
  {
    var idx := IndexOf(s.targetIdentifiers, c.id);
    if idx == -1 then Fail("Failed to find target with identifier " + c.id)
    else Ok((s.(collectors := SetOrAppend(s.collectors, idx, handle)), c.(sinkIdx := idx)))
  }

  /**
   * The collector `startReading`, `finishedReading` and `applySettingToCollector` act on:
   * the table entry at the target's index. None stands for an index outside the table or
   * an empty slot, which the source dereferences without a check.
   */
  function CollectorFor(s: Sink, t: Target): (r: Option<nat>)
    ensures r.Some? <==> 0 <= t.targetIdx < |s.collectors| && s.collectors[t.targetIdx].Some?
    ensures r.Some? ==> s.collectors[t.targetIdx] == r
  {
    if 0 <= t.targetIdx < |s.collectors| then s.collectors[t.targetIdx] else None
  }

  /** The target `applySettingToTarget` reaches: the one registered at the collector's index. */
  function TargetFor(s: Sink, c: DC.Collector): (r: Option<Target>)
    ensures r.Some? <==> 0 <= c.sinkIdx < |s.targets|
    ensures r.Some? ==> r.value == s.targets[c.sinkIdx]
  {
    if 0 <= c.sinkIdx < |s.targets| then Some(s.targets[c.sinkIdx]) else None
  }

  /** `startReading (target)`: starts a read on the routed collector and returns its read block. */
  function StartReading(s: Sink, t: Target, world: seq<DC.Collector>): (r: (seq<DC.Collector>, DC.Block))
    requires CollectorFor(s, t).Some? && CollectorFor(s, t).value < |world|
    requires !world[CollectorFor(s, t).value].readLocked
    ensures var h := CollectorFor(s, t).value;
            && r.1 == world[h].readBlock
            && |r.0| == |world| && r.0[h].readLocked
            && r.0[h] == DC.StartReading(world[h]).0
            && forall k :: 0 <= k < |world| && k != h ==> r.0[k] == world[k]
  {
    var h := CollectorFor(s, t).value;
    var started := DC.StartReading(world[h]);
    (world[h := started.0], started.1)
  }

  /** `finishedReading (target)`: finishes the read on the routed collector. */
  function FinishedReading(s: Sink, t: Target, world: seq<DC.Collector>): (r: seq<DC.Collector>)
    requires CollectorFor(s, t).Some? && CollectorFor(s, t).value < |world|
    requires world[CollectorFor(s, t).value].readLocked
    ensures var h := CollectorFor(s, t).value;
            && |r| == |world| && !r[h].readLocked
            && r[h] == DC.FinishedReading(world[h])
            && forall k :: 0 <= k < |world| && k != h ==> r[k] == world[k]
  {
    var h := CollectorFor(s, t).value;
    world[h := DC.FinishedReading(world[h])]
  }

  /** Registers the targets with the given identifiers one after another. */
  function {:induction false} RegisterTargets(s: Sink, ids: seq<string>): (r: Sink)
    ensures r.targetIdentifiers == s.targetIdentifiers + ids
    ensures |r.targets| == |s.targets| + |ids| && r.targets[..|s.targets|] == s.targets
    ensures r.collectors == s.collectors
    decreases |ids|
  {
    if ids == [] then s
    else
      var front := ids[..|ids| - 1];
      var prev := RegisterTargets(s, front);
      assert front + [ids[|ids| - 1]] == ids;
      RegisterVisualizationTarget(prev, ids[|ids| - 1]).0
  }

  predicate Unique(ids: seq<string>) {
    forall i, j :: 0 <= i < j < |ids| ==> ids[i] != ids[j]
  }

  /**
   * Target `p` of a sink set up from scratch carries the `p`-th identifier and the first
   * index holding it; with unique identifiers that is its own position.
   */
  lemma RegisteredTargets(s0: Sink, ids: seq<string>, p: nat)
    requires Fresh(s0) && p < |ids|
    ensures var s := RegisterTargets(s0, ids);
            && s.targets[p].id == ids[p]
            && s.targets[p].targetIdx == IndexOf(ids, ids[p])
            && (Unique(ids) ==> s.targets[p].targetIdx == p)
  {
    FreshTarget(s0, ids, p);
    if Unique(ids) {
      UniqueIndexOf(ids, p);
    }
  }

  lemma FreshTarget(s0: Sink, ids: seq<string>, p: nat)
    requires Fresh(s0) && p < |ids|
    ensures RegisterTargets(s0, ids).targets[p] == Target(ids[p], IndexOf(ids, ids[p]))
  {
    var front := ids[..p + 1];
    assert s0.targetIdentifiers + front == front && |s0.targets| == 0;
    RegisterTargetsEntries(s0, ids, p);
    FirstIndexWithinPrefix(ids, p);
  }

  /** The first index of the `p`-th identifier lies within the first `p + 1` identifiers. */
  lemma FirstIndexWithinPrefix(ids: seq<string>, p: nat)
    requires p < |ids|
    ensures IndexOf(ids[..p + 1], ids[p]) == IndexOf(ids, ids[p])
  {
    var front, back := ids[..p + 1], ids[p + 1..];
    assert front + back == ids;
    assert front[p] == ids[p];
    IndexOfPrefix(front, back, ids[p]);
  }

  /** With unique identifiers, each one is found at its own position. */
  lemma UniqueIndexOf(ids: seq<string>, p: nat)
    requires Unique(ids) && p < |ids|
    ensures IndexOf(ids, ids[p]) == p
  {
    assert ids[p] in ids;
  }

  /** Registration `p` of a list records the `p`-th identifier with the first index holding it so far. */
  lemma {:induction false} RegisterTargetsEntries(s: Sink, ids: seq<string>, p: nat)
    requires p < |ids|
    ensures RegisterTargets(s, ids).targets[|s.targets| + p]
            == Target(ids[p], IndexOf(s.targetIdentifiers + ids[..p + 1], ids[p]))
    decreases |ids|
  {
    var last := |ids| - 1;
    var front := ids[..last];
    var prev := RegisterTargets(s, front);
    if p == last {
      assert ids[..p + 1] == ids;
      assert prev.targetIdentifiers + [ids[p]] == s.targetIdentifiers + ids[..p + 1];
    } else {
      RegisterTargetsEntries(s, front, p);
      assert front[..p + 1] == ids[..p + 1];
      assert RegisterTargets(s, ids).targets[..|prev.targets|] == prev.targets;
    }
  }

  /**
   * Routing round trip: in a sink set up from unique identifiers, a collector registered
   * under the identifier of target `p` is what target `p` reads from, and its settings go
   * back to target `p`, whose identifier is the collector's.
   */
  lemma RoutingRoundTrip(s0: Sink, ids: seq<string>, p: nat, c: DC.Collector, handle: nat)
    requires Fresh(s0) && Unique(ids) && p < |ids| && c.id == ids[p]
    ensures var s := FinishedRegisteringTargets(RegisterTargets(s0, ids));
            var r := RegisterDataCollector(s, c, handle);
            && r.Ok?
            && CollectorFor(r.value.0, s.targets[p]) == Some(handle)
            && TargetFor(r.value.0, r.value.1) == Some(s.targets[p])
            && s.targets[p].id == c.id
  {
    var s := FinishedRegisteringTargets(RegisterTargets(s0, ids));
    RegisteredTargets(s0, ids, p);
    UniqueIndexOf(ids, p);
    RegisterAtOwnIndex(s, c, handle, p);
  }

  /** A collector whose identifier is held at position `p` only, in a sized table, lands in slot `p`. */
  lemma RegisterAtOwnIndex(s: Sink, c: DC.Collector, handle: nat, p: nat)
    requires p < |s.targetIdentifiers| == |s.collectors|
    requires s.targetIdentifiers[p] == c.id && IndexOf(s.targetIdentifiers, c.id) == p
    ensures var r := RegisterDataCollector(s, c, handle);
            && r.Ok? && r.value.1.sinkIdx == p && r.value.0.collectors[p] == Some(handle)
            && r.value.0.targets == s.targets
  {
  }

  /**
   * A successfully registered collector's settings reach a target whose identifier equals
   * the collector's, whatever the identifiers; with duplicates it is the first such target.
   */
  lemma SettingsReachMatchingTarget(s0: Sink, ids: seq<string>, c: DC.Collector, handle: nat)
    requires Fresh(s0)
    ensures var s := FinishedRegisteringTargets(RegisterTargets(s0, ids));
            var r := RegisterDataCollector(s, c, handle);
            r.Ok? ==> TargetFor(r.value.0, r.value.1).Some? && TargetFor(r.value.0, r.value.1).value.id == c.id
  {
    var s := FinishedRegisteringTargets(RegisterTargets(s0, ids));
    var r := RegisterDataCollector(s, c, handle);
    if r.Ok? {
      var i := r.value.1.sinkIdx;
      RegisteredTargets(s0, ids, i);
    }
  }

  /** A second collector with the same identifier takes over the first one's slot. */
  lemma LaterCollectorReplaces(s: Sink, c1: DC.Collector, h1: nat, c2: DC.Collector, h2: nat, t: Target)
    requires c1.id == c2.id && |s.collectors| == |s.targetIdentifiers|
    requires RegisterDataCollector(s, c1, h1).Ok?
    requires t.targetIdx == RegisterDataCollector(s, c1, h1).value.1.sinkIdx
    ensures var s1 := RegisterDataCollector(s, c1, h1).value.0;
            && RegisterDataCollector(s1, c2, h2).Ok?
            && CollectorFor(s1, t) == Some(h1)
            && CollectorFor(RegisterDataCollector(s1, c2, h2).value.0, t) == Some(h2)
  {
  }
}
