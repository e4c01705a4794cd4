/** Snapshot assembly does not depend on arrival order, repeats or stale traffic. */
module AssemblyRuns {
  import opened Basics
  import opened SnapshotWire
  import opened BotAssembler

  /** The assembler after a whole run of chunks. */
  function After(a: Assembler, run: seq<Chunk>): Assembler {
    if run == [] then a else Ingest(After(a, run[..|run| - 1]), run[|run| - 1]).assembler
  }

  /** The reply to the chunk at position `i` of a run. */
  function ReplyAt(a: Assembler, run: seq<Chunk>, i: nat): Reply
    requires i < |run|
  {
    Ingest(After(a, run[..i]), run[i]).reply
  }

  // ----- every run -----

  lemma {:induction false} RunSound(a: Assembler, run: seq<Chunk>)
    requires Sound(a)
    ensures Sound(After(a, run)) && a.completed <= After(a, run).completed
  {
    if run != [] {
      RunSound(a, run[..|run| - 1]);
      IngestSound(After(a, run[..|run| - 1]), run[|run| - 1]);
    }
  }

  lemma {:induction false} AfterSplit(a: Assembler, first: seq<Chunk>, rest: seq<Chunk>)
    ensures After(a, first + rest) == After(After(a, first), rest)
  {
    if rest == [] {
      assert first + rest == first;
    } else {
      assert (first + rest)[..|first + rest| - 1] == first + rest[..|rest| - 1];
      AfterSplit(a, first, rest[..|rest| - 1]);
    }
  }

  lemma CompleteStep(a: Assembler, chunk: Chunk)
    requires Sound(a) && Ingest(a, chunk).reply.Complete?
    ensures var (snapshot, after) := (Ingest(a, chunk).reply.snapshot, Ingest(a, chunk).assembler);
            a.completed < snapshot.sequence == after.completed && DistinctIds(snapshot.entities)
  {
  }

  lemma CompletedMonotone(a: Assembler, run: seq<Chunk>, i: nat, j: nat)
    requires Sound(a) && i <= j <= |run|
    ensures Sound(After(a, run[..i])) && After(a, run[..i]).completed <= After(a, run[..j]).completed
  {
    RunSound(a, run[..i]);
    RunSound(After(a, run[..i]), run[i..j]);
    assert run[..j] == run[..i] + run[i..j];
    AfterSplit(a, run[..i], run[i..j]);
  }

  lemma AfterOne(a: Assembler, run: seq<Chunk>, i: nat)
    requires i < |run|
    ensures After(a, run[..i + 1]) == Ingest(After(a, run[..i]), run[i]).assembler
  {
    assert run[..i + 1][..i] == run[..i];
  }

  /** The indices already held of the chunk's snapshot; a newer snapshot starts over. */
  function Held(a: Assembler, sequence: u32): map<nat, seq<Entity>> {
    if a.pending.Some? && a.pending.value.sequence == sequence then a.pending.value.chunks else map[]
  }

  predicate Stale(a: Assembler, chunk: Chunk) {
    chunk.sequence <= a.completed || (a.pending.Some? && chunk.sequence < a.pending.value.sequence)
  }

  /** The chunk's snapshot is pending under other metadata. */
  predicate Disagrees(a: Assembler, chunk: Chunk) {
    && a.pending.Some? && a.pending.value.sequence == chunk.sequence
    && a.pending.value != Opened(chunk).(chunks := a.pending.value.chunks)
  }

  /** A valid chunk that is neither stale nor disagreeing nor a repeat. */
  predicate Fits(a: Assembler, chunk: Chunk) {
    chunk.Validate() && !Stale(a, chunk) && !Disagrees(a, chunk) && chunk.index !in Held(a, chunk.sequence)
  }

  lemma GrownIsComplete(a: Assembler, chunk: Chunk)
    requires Sound(a) && Fits(a, chunk)
    ensures var grown := Held(a, chunk.sequence)[chunk.index := chunk.entities];
            |grown| == chunk.count <==> grown.Keys == Below(chunk.count)
  {
    var held := Held(a, chunk.sequence);
    var grown := held[chunk.index := chunk.entities];
    assert grown.Keys == held.Keys + {chunk.index};
    IndicesComplete(grown.Keys, chunk.count);
    assert |grown| == |grown.Keys|;
  }

  /** A fitting chunk is held while an index is missing; the last one completes the snapshot, or drops it over a repeated identity. */
  lemma FittingChunk(a: Assembler, chunk: Chunk)
    requires Sound(a) && Fits(a, chunk)
    ensures var grown := Held(a, chunk.sequence)[chunk.index := chunk.entities];
            var entities := Flatten(grown, chunk.count);
            Ingest(a, chunk)
            == if grown.Keys != Below(chunk.count) then
                 Step(Assembler(a.completed, Some(Pending(chunk.sequence, chunk.serverTick, chunk.stateVersion,
                                                          chunk.acknowledged, chunk.count, grown))), Quiet)
               else if DistinctIds(entities) then
                 Step(Assembler(chunk.sequence, None),
                      Complete(Snapshot(chunk.sequence, chunk.serverTick, chunk.stateVersion, chunk.acknowledged, entities)))
               else Step(Assembler(a.completed, None), Refused(DuplicateSnapshotEntity))
  {
    GrownIsComplete(a, chunk);
  }

  /** What every other chunk does: a malformed, stale, disagreeing or repeated chunk is answered so and changes nothing. */
  lemma MisfitIsRefused(a: Assembler, chunk: Chunk)
    requires Sound(a) && !Fits(a, chunk)
    ensures Ingest(a, chunk)
            == Step(a, if !chunk.Validate() then Refused(InvalidSnapshotChunk)
                       else if Stale(a, chunk) then Quiet
                       else if Disagrees(a, chunk) then Refused(InconsistentSnapshotMetadata)
                       else if Held(a, chunk.sequence)[chunk.index] == chunk.entities then Quiet
                       else Refused(ConflictingSnapshotDuplicate))
  {
  }

  /**
   * A snapshot completes exactly when a fitting chunk brings the last missing index and all identities
   * differ; it is then the concatenation by index under the chunk's metadata.
   */
  lemma ChunkExactly(a: Assembler, chunk: Chunk)
    requires Sound(a)
    ensures var grown := Held(a, chunk.sequence)[chunk.index := chunk.entities];
            var entities := Flatten(grown, chunk.count);
            && (Ingest(a, chunk).reply.Complete? <==>
                  Fits(a, chunk) && grown.Keys == Below(chunk.count) && DistinctIds(entities))
            && (Ingest(a, chunk).reply.Complete? ==>
                  Ingest(a, chunk).reply.snapshot
                  == Snapshot(chunk.sequence, chunk.serverTick, chunk.stateVersion, chunk.acknowledged, entities))
  {
    if Fits(a, chunk) {
      FittingChunk(a, chunk);
    } else {
      MisfitIsRefused(a, chunk);
    }
  }

  /** Over every run, emitted snapshots carry strictly increasing sequences and no repeated identity. */
  lemma EmissionsIncrease(a: Assembler, run: seq<Chunk>, i: nat, j: nat)
    requires Sound(a) && i < j < |run|
    requires ReplyAt(a, run, i).Complete? && ReplyAt(a, run, j).Complete?
    ensures ReplyAt(a, run, i).snapshot.sequence < ReplyAt(a, run, j).snapshot.sequence
    ensures DistinctIds(ReplyAt(a, run, i).snapshot.entities)
  {
    CompletedMonotone(a, run, i, i);
    CompletedMonotone(a, run, i + 1, j);
    CompletedMonotone(a, run, j, j);
    CompleteStep(After(a, run[..i]), run[i]);
    CompleteStep(After(a, run[..j]), run[j]);
    AfterOne(a, run, i);
  }

  // ----- one snapshot's chunks -----

  /** The chunks of one snapshot, listed by index. */
  predicate Family(family: seq<Chunk>) {
    && |family| > 0
    && forall i :: 0 <= i < |family| ==>
         && family[i].Validate() && family[i].index == i && family[i].count == |family|
         && family[i].sequence == family[0].sequence && family[i].serverTick == family[0].serverTick
         && family[i].stateVersion == family[0].stateVersion && family[i].acknowledged == family[0].acknowledged
  }

  /** All entities of the family, chunk by chunk in index order. */
  function Concat(family: seq<Chunk>): seq<Entity> {
    if family == [] then [] else Concat(family[..|family| - 1]) + family[|family| - 1].entities
  }

  function Expected(family: seq<Chunk>): Snapshot
    requires family != []
  {
    Snapshot(family[0].sequence, family[0].serverTick, family[0].stateVersion, family[0].acknowledged, Concat(family))
  }

  lemma {:induction false} ConcatOf(family: seq<Chunk>)
    requires forall chunk :: chunk in family ==> chunk.Validate()
    ensures |Concat(family)| <= MAX_SNAPSHOT_ENTITIES_PER_CHUNK * |family|
    ensures forall e :: e in Concat(family) ==> e.Validate()
  {
    if family != [] {
      var (front, last) := (family[..|family| - 1], family[|family| - 1]);
      assert last in family && last.Validate();
      ConcatOf(front);
      assert |Concat(family)| == |Concat(front)| + |last.entities|;
    }
  }

  /** A snapshot that is emitted holds at most 2048 entities, each named, and each combatant within its health. */
  lemma EmittedIsBounded(family: seq<Chunk>)
    requires Family(family)
    ensures |Expected(family).entities| <= 2_048
    ensures forall e :: e in Expected(family).entities ==>
              && e.id != 0
              && (e.kind == Player || e.kind == Enemy || e.kind == Boss ==> e.currentHealth <= e.maximumHealth && e.maximumHealth > 0)
              && (e.kind == FriendlyProjectile <==> e.sourceEntityId != 0)
  {
    ConcatOf(family);
    assert family[0].count == |family|;
  }

  /** Traffic that may be interleaved: the family's own chunks, malformed chunks and older sequences. */
  predicate Traffic(family: seq<Chunk>, chunk: Chunk)
    requires family != []
  {
    chunk in family || !chunk.Validate() || chunk.sequence < family[0].sequence
  }

  /** The family's indices that occur in a run. */
  function Seen(family: seq<Chunk>, run: seq<Chunk>): (s: set<nat>)
    ensures forall i: nat :: i in s <==> i < |family| && family[i] in run
  {
    set i: nat | i < |family| && family[i] in run
  }

  /** The assembler has met nothing of this sequence or of a newer one. */
  predicate Untouched(a: Assembler, sequence: u32) {
    a.completed < sequence && (a.pending.Some? ==> a.pending.value.sequence < sequence)
  }

  function Partial(family: seq<Chunk>, seen: set<nat>): Pending
    requires family != [] && forall i :: i in seen ==> i < |family|
  {
    Opened(family[0]).(chunks := map i | i in seen :: family[i].entities)
  }

  /** The assembler is exactly as far as the indices it has seen. */
  predicate Progress(a: Assembler, family: seq<Chunk>, seen: set<nat>)
    requires family != [] && forall i :: i in seen ==> i < |family|
  {
    if seen == {} then Untouched(a, family[0].sequence)
    else if seen == Below(|family|) then a == Assembler(family[0].sequence, None)
    else a.completed < family[0].sequence && a.pending == Some(Partial(family, seen))
  }

  lemma {:induction false} FlattenFamily(family: seq<Chunk>, chunks: map<nat, seq<Entity>>, n: nat)
    requires n <= |family|
    requires forall i: nat :: i < n ==> i in chunks && chunks[i] == family[i].entities
    ensures Flatten(chunks, n) == Concat(family[..n])
  {
    if n > 0 {
      FlattenFamily(family, chunks, n - 1);
      assert family[..n][..n - 1] == family[..n - 1];
    }
  }

  /** The indices seen once one more chunk has arrived. */
  function Grow(family: seq<Chunk>, seen: set<nat>, chunk: Chunk): set<nat> {
    if chunk in family then seen + {chunk.index} else seen
  }

  /** Stale or malformed traffic changes nothing that matters and never completes this snapshot. */
  lemma OtherTraffic(a: Assembler, family: seq<Chunk>, seen: set<nat>, chunk: Chunk)
    requires Family(family) && (forall i :: i in seen ==> i < |family|) && Progress(a, family, seen) && Sound(a)
    requires !chunk.Validate() || chunk.sequence < family[0].sequence
    ensures Progress(Ingest(a, chunk).assembler, family, seen)
    ensures var reply := Ingest(a, chunk).reply; !(reply.Complete? && reply.snapshot.sequence == family[0].sequence)
  {
  }

  /** A chunk of the family that has been seen already is ignored. */
  lemma RepeatedChunk(a: Assembler, family: seq<Chunk>, seen: set<nat>, k: nat)
    requires Family(family) && k < |family| && (forall i :: i in seen ==> i < |family|) && Progress(a, family, seen)
    requires k in seen
    ensures Ingest(a, family[k]) == Step(a, Quiet)
  {
  }

  lemma StoreNew(family: seq<Chunk>, seen: set<nat>, k: nat, completed: u32)
    requires Family(family) && k < |family| && DistinctIds(Concat(family))
    requires (forall i :: i in seen ==> i < |family|) && k !in seen
    ensures Store(completed, Partial(family, seen), family[k]) ==
              if seen + {k} == Below(|family|) then Step(Assembler(family[0].sequence, None), Complete(Expected(family)))
              else Step(Assembler(completed, Some(Partial(family, seen + {k}))), Quiet)
  {
    var pending := Partial(family, seen);
    var grown := pending.(chunks := pending.chunks[k := family[k].entities]);
    assert grown == Partial(family, seen + {k});
    assert grown.chunks.Keys == seen + {k};
    IndicesComplete(seen + {k}, |family|);
    if seen + {k} == Below(|family|) {
      FlattenFamily(family, grown.chunks, |family|);
      assert family[..|family|] == family;
    }
  }

  /** A chunk of the family not seen before is stored, and completes the snapshot if it was the last. */
  lemma NewChunk(a: Assembler, family: seq<Chunk>, seen: set<nat>, k: nat)
    requires Family(family) && k < |family| && DistinctIds(Concat(family))
    requires (forall i :: i in seen ==> i < |family|) && Progress(a, family, seen) && k !in seen
    ensures Ingest(a, family[k]) == Store(a.completed, Partial(family, seen), family[k])
    ensures Progress(Ingest(a, family[k]).assembler, family, seen + {k})
    ensures Ingest(a, family[k]).reply == if seen + {k} == Below(|family|) then Complete(Expected(family)) else Quiet
  {
    assert k in Below(|family|);
    assert seen == {} ==> Opened(family[k]) == Partial(family, seen);
    StoreNew(family, seen, k, a.completed);
  }

  /** A step takes the assembler from one set of seen indices to the next, emitting exactly on completion. */
  predicate Follows(family: seq<Chunk>, seen: set<nat>, grown: set<nat>, step: Step)
    requires family != [] && forall i :: i in grown ==> i < |family|
  {
    && Progress(step.assembler, family, grown)
    && (if seen != Below(|family|) && grown == Below(|family|) then step.reply == Complete(Expected(family))
        else !(step.reply.Complete? && step.reply.snapshot.sequence == family[0].sequence))
  }

  lemma OwnStep(a: Assembler, family: seq<Chunk>, seen: set<nat>, k: nat)
    requires Family(family) && DistinctIds(Concat(family)) && k < |family|
    requires (forall i :: i in seen ==> i < |family|) && Progress(a, family, seen)
    ensures Follows(family, seen, seen + {k}, Ingest(a, family[k]))
  {
    if k in seen {
      assert seen + {k} == seen;
      RepeatedChunk(a, family, seen, k);
    } else {
      assert k in Below(|family|);
      NewChunk(a, family, seen, k);
    }
  }

  lemma TrafficStep(a: Assembler, family: seq<Chunk>, seen: set<nat>, chunk: Chunk)
    requires Family(family) && DistinctIds(Concat(family)) && Sound(a) && Traffic(family, chunk)
    requires (forall i :: i in seen ==> i < |family|) && Progress(a, family, seen)
    ensures forall i :: i in Grow(family, seen, chunk) ==> i < |family|
    ensures Follows(family, seen, Grow(family, seen, chunk), Ingest(a, chunk))
  {
    if chunk in family {
      assert family[chunk.index] == chunk;
      OwnStep(a, family, seen, chunk.index);
    } else {
      OtherTraffic(a, family, seen, chunk);
    }
  }

  lemma SeenGrows(family: seq<Chunk>, before: seq<Chunk>, chunk: Chunk)
    requires Family(family)
    ensures Seen(family, before + [chunk]) == Grow(family, Seen(family, before), chunk)
  {
  }

  /**
   * For one snapshot's consistent chunks with distinct identities: under any arrival order, any
   * exact repeats and any interleaved older or malformed chunks, the assembler stands exactly where
   * the set of indices seen puts it.
   */
  lemma {:induction false} AssemblyFollowsSeen(a: Assembler, family: seq<Chunk>, run: seq<Chunk>)
    requires Family(family) && DistinctIds(Concat(family))
    requires Sound(a) && Untouched(a, family[0].sequence)
    requires forall c :: c in run ==> Traffic(family, c)
    ensures Progress(After(a, run), family, Seen(family, run)) && Sound(After(a, run))
  {
    RunSound(a, run);
    if run != [] {
      var before, chunk := run[..|run| - 1], run[|run| - 1];
      assert run == before + [chunk];
      AssemblyFollowsSeen(a, family, before);
      TrafficStep(After(a, before), family, Seen(family, before), chunk);
      SeenGrows(family, before, chunk);
    } else {
      assert Seen(family, run) == {};
    }
  }

  /** Each position of a run takes the assembler from the indices seen before it to those seen after it. */
  lemma RunStep(a: Assembler, family: seq<Chunk>, run: seq<Chunk>, i: nat)
    requires Family(family) && DistinctIds(Concat(family))
    requires Sound(a) && Untouched(a, family[0].sequence)
    requires forall c :: c in run ==> Traffic(family, c)
    requires i < |run|
    ensures Follows(family, Seen(family, run[..i]), Seen(family, run[..i + 1]), Ingest(After(a, run[..i]), run[i]))
  {
    AssemblyFollowsSeen(a, family, run[..i]);
    TrafficStep(After(a, run[..i]), family, Seen(family, run[..i]), run[i]);
    assert run[..i + 1] == run[..i] + [run[i]];
    SeenGrows(family, run[..i], run[i]);
  }

  /**
   * The snapshot is emitted at exactly one position, the arrival of the last missing index, and it is
   * the concatenation of the chunks by index.
   */
  lemma EmittedExactlyOnCompletion(a: Assembler, family: seq<Chunk>, run: seq<Chunk>, i: nat)
    requires Family(family) && DistinctIds(Concat(family))
    requires Sound(a) && Untouched(a, family[0].sequence)
    requires forall c :: c in run ==> Traffic(family, c)
    requires i < |run|
    ensures var reply := ReplyAt(a, run, i);
            if Seen(family, run[..i]) != Below(|family|) && Seen(family, run[..i + 1]) == Below(|family|)
            then reply == Complete(Expected(family))
            else !(reply.Complete? && reply.snapshot.sequence == family[0].sequence)
  {
    RunStep(a, family, run, i);
  }

  /** A run that covers the family therefore does emit the snapshot. */
  lemma CoveringRunEmits(a: Assembler, family: seq<Chunk>, run: seq<Chunk>)
    requires Family(family) && DistinctIds(Concat(family))
    requires Sound(a) && Untouched(a, family[0].sequence)
    requires forall c :: c in run ==> Traffic(family, c)
    requires forall c :: c in family ==> c in run
    ensures exists i: nat :: i < |run| && ReplyAt(a, run, i) == Complete(Expected(family))
    ensures After(a, run) == Assembler(family[0].sequence, None)
  {
    assert Seen(family, run) == Below(|family|);
    AssemblyFollowsSeen(a, family, run);
    assert run[..0] == [] && run[..|run|] == run && 0 in Below(|family|);
    var i := Rises((n: nat) => n <= |run| && Seen(family, run[..n]) == Below(|family|), 0, |run|);
    EmittedExactlyOnCompletion(a, family, run, i);
  }
}
