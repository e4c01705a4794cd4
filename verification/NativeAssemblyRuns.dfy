/** The native assembler over runs: what completes, what is evicted, and independence of arrival order. */
module NativeAssemblyRuns {
  import opened Basics
  import opened SnapshotWire
  import opened NativeAssembler
  import A = AssemblyRuns

  function After(a: Assembler, run: seq<Chunk>): Assembler {
    if run == [] then a else Push(After(a, run[..|run| - 1]), run[|run| - 1]).assembler
  }

  function ReplyAt(a: Assembler, run: seq<Chunk>, i: nat): Reply
    requires i < |run|
  {
    Push(After(a, run[..i]), run[i]).reply
  }

  /** At most four snapshots are incomplete, each newer than the last complete one, their indices in range. */
  predicate Sound(a: Assembler) {
    && |a.pending| <= MAX_INCOMPLETE_SNAPSHOTS
    && (forall s :: s in a.pending ==> s > a.lastCompleted && forall i :: i in a.pending[s].chunks ==> i < a.pending[s].count)
  }

  /** The chunk's sequence is new and all four places are taken. */
  predicate Crowded(a: Assembler, sequence: u32) {
    sequence !in a.pending && |a.pending| == MAX_INCOMPLETE_SNAPSHOTS
  }

  /** The least pending sequence, which makes way. */
  predicate MakesWay(a: Assembler, sequence: u32, s: u32) {
    Crowded(a, sequence) && forall t :: t in a.pending ==> s <= t
  }

  /** Everything pending but the snapshot that makes way for a new sequence. */
  function Room(a: Assembler, sequence: u32): map<u32, Pending> {
    map s | s in a.pending && !MakesWay(a, sequence, s) :: a.pending[s]
  }

  function Held(a: Assembler, sequence: u32): map<nat, seq<Entity>> {
    if sequence in a.pending then a.pending[sequence].chunks else map[]
  }

  lemma RoomIsMade(a: Assembler, sequence: u32)
    requires Sound(a)
    ensures MakeRoom(a.pending, sequence) == Room(a, sequence)
    ensures |Room(a, sequence)| <= MAX_INCOMPLETE_SNAPSHOTS
    ensures sequence !in a.pending ==> |Room(a, sequence)| < MAX_INCOMPLETE_SNAPSHOTS
    ensures sequence in a.pending ==> Room(a, sequence) == a.pending
  {
    if Crowded(a, sequence) {
      var oldest := Oldest(a.pending.Keys);
      assert forall s :: s in a.pending ==> (MakesWay(a, sequence, s) <==> s == oldest);
      assert Room(a, sequence) == a.pending - {oldest};
      assert (a.pending - {oldest}).Keys == a.pending.Keys - {oldest};
    } else {
      assert Room(a, sequence) == a.pending;
    }
  }

  function Described(chunk: Chunk, chunks: map<nat, seq<Entity>>): Pending {
    Pending(chunk.serverTick, chunk.stateVersion, chunk.acknowledged, chunk.count, chunks)
  }

  /** The snapshot the chunk belongs to is pending under other metadata. */
  predicate Disagrees(a: Assembler, chunk: Chunk) {
    && chunk.sequence in a.pending
    && a.pending[chunk.sequence] != Described(chunk, a.pending[chunk.sequence].chunks)
  }

  /** The indices held once the chunk is. */
  function Grown(a: Assembler, chunk: Chunk): map<nat, seq<Entity>> {
    Held(a, chunk.sequence)[chunk.index := chunk.entities]
  }

  function Newer(pending: map<u32, Pending>, sequence: u32): map<u32, Pending> {
    map s | s in pending && s > sequence :: pending[s]
  }

  /** A chunk that neither disagrees nor repeats. */
  predicate Fits(a: Assembler, chunk: Chunk) {
    !Disagrees(a, chunk) && chunk.index !in Held(a, chunk.sequence)
  }

  /** A valid chunk newer than the last complete snapshot. */
  predicate Fresh(a: Assembler, chunk: Chunk) {
    chunk.Validate() && chunk.sequence > a.lastCompleted
  }

  lemma KeepSame(m: map<u32, Pending>, s: u32)
    requires s in m
    ensures m[s := m[s]] == m
  {
  }

  /** A disagreement or a repeat is refused and changes nothing. */
  lemma MisfitIsRefused(a: Assembler, chunk: Chunk)
    requires Sound(a) && Fresh(a, chunk) && !Fits(a, chunk)
    ensures Push(a, chunk)
            == Step(a, Refused(if Disagrees(a, chunk) then InconsistentSnapshotMetadata
                               else DuplicateSnapshotChunk(chunk.sequence, chunk.index)))
  {
    RoomIsMade(a, chunk.sequence);
    KeepSame(a.pending, chunk.sequence);
  }

  lemma EntryIsHeld(a: Assembler, chunk: Chunk)
    requires Sound(a) && !Disagrees(a, chunk)
    ensures Entry(MakeRoom(a.pending, chunk.sequence), chunk) == Described(chunk, Held(a, chunk.sequence))
    ensures MakeRoom(a.pending, chunk.sequence) == Room(a, chunk.sequence)
  {
    RoomIsMade(a, chunk.sequence);
  }

  lemma GrownKeys(a: Assembler, chunk: Chunk)
    requires Sound(a) && chunk.Validate() && Fits(a, chunk)
    ensures |Grown(a, chunk)| == chunk.count <==> Grown(a, chunk).Keys == Below(chunk.count)
    ensures forall i :: i in Grown(a, chunk) ==> i < chunk.count
  {
    var grown := Grown(a, chunk);
    assert grown.Keys == Held(a, chunk.sequence).Keys + {chunk.index};
    IndicesComplete(grown.Keys, chunk.count);
    assert |grown| == |grown.Keys|;
  }

  /** While an index is missing the chunk is only held. */
  lemma ChunkIsHeld(a: Assembler, chunk: Chunk)
    requires Sound(a) && Fresh(a, chunk) && Fits(a, chunk) && Grown(a, chunk).Keys != Below(chunk.count)
    ensures Push(a, chunk)
            == Step(Assembler(a.lastCompleted, Room(a, chunk.sequence)[chunk.sequence := Described(chunk, Grown(a, chunk))]), Quiet)
  {
    EntryIsHeld(a, chunk);
    GrownKeys(a, chunk);
  }

  lemma NewerSkips(pending: map<u32, Pending>, sequence: u32)
    ensures Newer(pending - {sequence}, sequence) == Newer(pending, sequence)
  {
  }

  lemma FinishExactly(lastCompleted: u32, room: map<u32, Pending>, entry: Pending, sequence: u32)
    ensures var entities := Flatten(entry.chunks, entry.count);
            Finish(lastCompleted, room - {sequence}, entry, sequence)
            == if DistinctIds(entities) then
                 Step(Assembler(sequence, Newer(room, sequence)),
                      Complete(Snapshot(sequence, entry.serverTick, entry.stateVersion, entry.acknowledged, entities)))
               else Step(Assembler(lastCompleted, room - {sequence}), Refused(DuplicateSnapshotEntity))
  {
    NewerSkips(room, sequence);
  }

  /** With every index below the count held, the snapshot completes exactly when all identities differ. */
  lemma SnapshotIsFinished(a: Assembler, chunk: Chunk)
    requires Sound(a) && Fresh(a, chunk) && Fits(a, chunk) && Grown(a, chunk).Keys == Below(chunk.count)
    ensures var (room, entities) := (Room(a, chunk.sequence), Flatten(Grown(a, chunk), chunk.count));
            Push(a, chunk)
            == if DistinctIds(entities) then
                 Step(Assembler(chunk.sequence, Newer(room, chunk.sequence)),
                      Complete(Snapshot(chunk.sequence, chunk.serverTick, chunk.stateVersion, chunk.acknowledged, entities)))
               else Step(Assembler(a.lastCompleted, room - {chunk.sequence}), Refused(DuplicateSnapshotEntity))
  {
    EntryIsHeld(a, chunk);
    GrownKeys(a, chunk);
    FinishExactly(a.lastCompleted, Room(a, chunk.sequence), Described(chunk, Grown(a, chunk)), chunk.sequence);
  }

  /**
   * A push completes a snapshot exactly when a valid newer chunk fits and brings the last missing index,
   * and all identities differ; the snapshot is then the concatenation by index, under the chunk's metadata.
   */
  lemma CompletionExactly(a: Assembler, chunk: Chunk)
    requires Sound(a)
    ensures var entities := Flatten(Grown(a, chunk), chunk.count);
            && (Push(a, chunk).reply.Complete? <==>
                  Fresh(a, chunk) && Fits(a, chunk) && Grown(a, chunk).Keys == Below(chunk.count) && DistinctIds(entities))
            && (Push(a, chunk).reply.Complete? ==>
                  Push(a, chunk).reply.snapshot
                  == Snapshot(chunk.sequence, chunk.serverTick, chunk.stateVersion, chunk.acknowledged, entities))
  {
    if Fresh(a, chunk) {
      if !Fits(a, chunk) {
        MisfitIsRefused(a, chunk);
      } else if Grown(a, chunk).Keys != Below(chunk.count) {
        ChunkIsHeld(a, chunk);
      } else {
        SnapshotIsFinished(a, chunk);
      }
    }
  }

  lemma PutSize(m: map<u32, Pending>, s: u32, p: Pending)
    ensures |m[s := p]| <= |m| + 1
    ensures s in m ==> |m[s := p]| == |m|
    ensures |m - {s}| <= |m|
  {
    assert m[s := p].Keys == m.Keys + {s};
    assert (m - {s}).Keys == m.Keys - {s};
  }

  lemma NewerSize(m: map<u32, Pending>, s: u32)
    ensures |Newer(m, s)| <= |m|
  {
    SubsetSize(Newer(m, s).Keys, m.Keys);
  }

  lemma PushSound(a: Assembler, chunk: Chunk)
    requires Sound(a)
    ensures Sound(Push(a, chunk).assembler) && a.lastCompleted <= Push(a, chunk).assembler.lastCompleted
  {
    if Fresh(a, chunk) {
      var room := Room(a, chunk.sequence);
      RoomIsMade(a, chunk.sequence);
      PutSize(room, chunk.sequence, Described(chunk, Grown(a, chunk)));
      NewerSize(room, chunk.sequence);
      if !Fits(a, chunk) {
        MisfitIsRefused(a, chunk);
      } else if Grown(a, chunk).Keys != Below(chunk.count) {
        HeldSound(a, chunk);
      } else {
        SnapshotIsFinished(a, chunk);
      }
    }
  }

  lemma HeldSound(a: Assembler, chunk: Chunk)
    requires Sound(a) && Fresh(a, chunk) && Fits(a, chunk) && Grown(a, chunk).Keys != Below(chunk.count)
    ensures Sound(Push(a, chunk).assembler) && a.lastCompleted <= Push(a, chunk).assembler.lastCompleted
  {
    var room := Room(a, chunk.sequence);
    RoomIsMade(a, chunk.sequence);
    PutSize(room, chunk.sequence, Described(chunk, Grown(a, chunk)));
    GrownKeys(a, chunk);
    ChunkIsHeld(a, chunk);
  }

  lemma {:induction false} RunSound(a: Assembler, run: seq<Chunk>)
    requires Sound(a)
    ensures Sound(After(a, run)) && a.lastCompleted <= After(a, run).lastCompleted
  {
    if run != [] {
      RunSound(a, run[..|run| - 1]);
      PushSound(After(a, run[..|run| - 1]), run[|run| - 1]);
    }
  }

  // ----- one snapshot's chunks, in any order -----

  /** The assembler has met nothing of this sequence or of a newer one. */
  predicate Untouched(a: Assembler, sequence: u32) {
    a.lastCompleted < sequence && forall s :: s in a.pending ==> s < sequence
  }

  function Partial(family: seq<Chunk>, seen: set<nat>): Pending
    requires family != [] && forall i :: i in seen ==> i < |family|
  {
    Described(family[0], map i | i in seen :: family[i].entities)
  }

  /** Nothing newer is pending, and of this snapshot exactly the indices seen, until all are and it is complete. */
  predicate Progress(a: Assembler, family: seq<Chunk>, seen: set<nat>)
    requires family != [] && forall i :: i in seen ==> i < |family|
  {
    var sequence := family[0].sequence;
    if seen == Below(|family|) then a == Assembler(sequence, map[])
    else if seen == {} then Untouched(a, sequence)
    else
      && a.lastCompleted < sequence && (forall s :: s in a.pending ==> s <= sequence)
      && sequence in a.pending && a.pending[sequence] == Partial(family, seen)
  }

  predicate Follows(family: seq<Chunk>, seen: set<nat>, grown: set<nat>, step: Step)
    requires family != [] && forall i :: i in grown ==> i < |family|
  {
    && Progress(step.assembler, family, grown)
    && (if seen != Below(|family|) && grown == Below(|family|) then step.reply == Complete(A.Expected(family))
        else !(step.reply.Complete? && step.reply.snapshot.sequence == family[0].sequence))
  }

  /** An older snapshot's chunk, whatever it completes or evicts, leaves this snapshot as it was. */
  lemma OtherStep(a: Assembler, family: seq<Chunk>, seen: set<nat>, chunk: Chunk)
    requires A.Family(family) && (forall i :: i in seen ==> i < |family|) && Progress(a, family, seen) && Sound(a)
    requires !chunk.Validate() || chunk.sequence < family[0].sequence
    ensures Follows(family, seen, seen, Push(a, chunk))
  {
    if Fresh(a, chunk) {
      assert 0 in Below(|family|);
      if family[0].sequence in a.pending {
        OlderMakesWay(a, chunk.sequence, family[0].sequence);
      }
      if !Fits(a, chunk) {
        MisfitIsRefused(a, chunk);
      } else if Grown(a, chunk).Keys != Below(chunk.count) {
        ChunkIsHeld(a, chunk);
      } else {
        SnapshotIsFinished(a, chunk);
      }
    }
  }

  /** A pending snapshot newer than the arriving one is not the one that makes way while an older one is pending. */
  lemma OlderMakesWay(a: Assembler, sequence: u32, newest: u32)
    requires Sound(a) && newest in a.pending && forall s :: s in a.pending ==> s <= newest
    ensures newest in Room(a, sequence)
  {
    if Crowded(a, sequence) {
      assert a.pending.Keys != {newest} by {
        assert |{newest}| == 1;
        assert |a.pending| == |a.pending.Keys|;
      }
      var s :| s in a.pending && s != newest;
    }
  }

  lemma RepeatStep(a: Assembler, family: seq<Chunk>, seen: set<nat>, k: nat)
    requires A.Family(family) && (forall i :: i in seen ==> i < |family|) && Progress(a, family, seen) && Sound(a)
    requires k in seen
    ensures Follows(family, seen, seen, Push(a, family[k]))
  {
    if seen != Below(|family|) {
      MisfitIsRefused(a, family[k]);
    }
  }

  lemma PartialGrows(family: seq<Chunk>, seen: set<nat>, k: nat)
    requires A.Family(family) && k < |family| && (forall i :: i in seen ==> i < |family|)
    ensures Described(family[k], Partial(family, seen).chunks[k := family[k].entities]) == Partial(family, seen + {k})
    ensures Partial(family, seen + {k}).chunks.Keys == seen + {k}
  {
    assert Partial(family, seen).chunks[k := family[k].entities] == Partial(family, seen + {k}).chunks;
  }

  lemma HeldIsPartial(a: Assembler, family: seq<Chunk>, seen: set<nat>, k: nat)
    requires A.Family(family) && k < |family| && (forall i :: i in seen ==> i < |family|) && Progress(a, family, seen)
    requires k !in seen
    ensures Held(a, family[k].sequence) == Partial(family, seen).chunks
    ensures Fits(a, family[k]) && family[k].sequence > a.lastCompleted
    ensures forall s :: s in a.pending ==> s <= family[k].sequence
  {
    assert k in Below(|family|);
    if seen == {} {
      assert Partial(family, seen).chunks == map[];
    }
  }

  lemma NewStep(a: Assembler, family: seq<Chunk>, seen: set<nat>, k: nat)
    requires A.Family(family) && DistinctIds(A.Concat(family)) && k < |family|
    requires (forall i :: i in seen ==> i < |family|) && Progress(a, family, seen) && Sound(a)
    requires k !in seen
    ensures Follows(family, seen, seen + {k}, Push(a, family[k]))
  {
    HeldIsPartial(a, family, seen, k);
    PartialGrows(family, seen, k);
    if seen + {k} == Below(|family|) {
      LastStep(a, family, seen, k);
    } else {
      ChunkIsHeld(a, family[k]);
    }
  }

  lemma GrownIsWhole(a: Assembler, family: seq<Chunk>, seen: set<nat>, k: nat)
    requires A.Family(family) && k < |family|
    requires (forall i :: i in seen ==> i < |family|) && Progress(a, family, seen)
    requires k !in seen && seen + {k} == Below(|family|)
    ensures Grown(a, family[k]).Keys == Below(family[k].count)
    ensures Flatten(Grown(a, family[k]), family[k].count) == A.Concat(family)
  {
    HeldIsPartial(a, family, seen, k);
    PartialGrows(family, seen, k);
    A.FlattenFamily(family, Partial(family, seen + {k}).chunks, |family|);
    assert family[..|family|] == family;
  }

  lemma NothingNewer(a: Assembler, sequence: u32)
    requires Sound(a) && forall s :: s in a.pending ==> s <= sequence
    ensures Newer(Room(a, sequence), sequence) == map[]
  {
  }

  lemma LastStep(a: Assembler, family: seq<Chunk>, seen: set<nat>, k: nat)
    requires A.Family(family) && DistinctIds(A.Concat(family)) && k < |family|
    requires (forall i :: i in seen ==> i < |family|) && Progress(a, family, seen) && Sound(a)
    requires k !in seen && seen + {k} == Below(|family|)
    ensures Push(a, family[k]) == Step(Assembler(family[0].sequence, map[]), Complete(A.Expected(family)))
  {
    HeldIsPartial(a, family, seen, k);
    GrownIsWhole(a, family, seen, k);
    SnapshotIsFinished(a, family[k]);
    NothingNewer(a, family[k].sequence);
  }

  lemma OwnStep(a: Assembler, family: seq<Chunk>, seen: set<nat>, k: nat)
    requires A.Family(family) && DistinctIds(A.Concat(family)) && k < |family|
    requires (forall i :: i in seen ==> i < |family|) && Progress(a, family, seen) && Sound(a)
    ensures Follows(family, seen, seen + {k}, Push(a, family[k]))
  {
    if k in seen {
      assert seen + {k} == seen;
      RepeatStep(a, family, seen, k);
    } else {
      NewStep(a, family, seen, k);
    }
  }

  lemma TrafficStep(a: Assembler, family: seq<Chunk>, seen: set<nat>, chunk: Chunk)
    requires A.Family(family) && DistinctIds(A.Concat(family)) && Sound(a) && A.Traffic(family, chunk)
    requires (forall i :: i in seen ==> i < |family|) && Progress(a, family, seen)
    ensures forall i :: i in A.Grow(family, seen, chunk) ==> i < |family|
    ensures Follows(family, seen, A.Grow(family, seen, chunk), Push(a, chunk))
  {
    if chunk in family {
      assert family[chunk.index] == chunk;
      OwnStep(a, family, seen, chunk.index);
    } else {
      OtherStep(a, family, seen, chunk);
    }
  }

  lemma {:induction false} AssemblyFollowsSeen(a: Assembler, family: seq<Chunk>, run: seq<Chunk>)
    requires A.Family(family) && DistinctIds(A.Concat(family))
    requires Sound(a) && Untouched(a, family[0].sequence)
    requires forall c :: c in run ==> A.Traffic(family, c)
    ensures Progress(After(a, run), family, A.Seen(family, run)) && Sound(After(a, run))
  {
    RunSound(a, run);
    if run != [] {
      var before, chunk := run[..|run| - 1], run[|run| - 1];
      assert run == before + [chunk];
      AssemblyFollowsSeen(a, family, before);
      TrafficStep(After(a, before), family, A.Seen(family, before), chunk);
      A.SeenGrows(family, before, chunk);
    } else {
      assert A.Seen(family, run) == {};
      assert 0 in Below(|family|);
    }
  }

  lemma RunStep(a: Assembler, family: seq<Chunk>, run: seq<Chunk>, i: nat)
    requires A.Family(family) && DistinctIds(A.Concat(family))
    requires Sound(a) && Untouched(a, family[0].sequence)
    requires forall c :: c in run ==> A.Traffic(family, c)
    requires i < |run|
    ensures Follows(family, A.Seen(family, run[..i]), A.Seen(family, run[..i + 1]), Push(After(a, run[..i]), run[i]))
  {
    AssemblyFollowsSeen(a, family, run[..i]);
    SeenNext(family, run, i);
    TrafficStep(After(a, run[..i]), family, A.Seen(family, run[..i]), run[i]);
  }

  lemma SeenNext(family: seq<Chunk>, run: seq<Chunk>, i: nat)
    requires A.Family(family) && i < |run|
    ensures A.Seen(family, run[..i + 1]) == A.Grow(family, A.Seen(family, run[..i]), run[i])
  {
    assert run[..i + 1] == run[..i] + [run[i]];
    A.SeenGrows(family, run[..i], run[i]);
  }

  /**
   * Whatever the order of arrival, with repeats and any traffic of older sequences, the snapshot is
   * completed at exactly one position, the arrival of its last missing index, as the concatenation by index.
   */
  lemma CompletedExactlyOnce(a: Assembler, family: seq<Chunk>, run: seq<Chunk>, i: nat)
    requires A.Family(family) && DistinctIds(A.Concat(family))
    requires Sound(a) && Untouched(a, family[0].sequence)
    requires forall c :: c in run ==> A.Traffic(family, c)
    requires i < |run|
    ensures var reply := ReplyAt(a, run, i);
            if A.Seen(family, run[..i]) != Below(|family|) && A.Seen(family, run[..i + 1]) == Below(|family|)
            then reply == Complete(A.Expected(family))
            else !(reply.Complete? && reply.snapshot.sequence == family[0].sequence)
  {
    RunStep(a, family, run, i);
  }

  /** A run that covers the family therefore completes it and leaves nothing pending. */
  lemma CoveringRunCompletes(a: Assembler, family: seq<Chunk>, run: seq<Chunk>) returns (i: nat)
    requires A.Family(family) && DistinctIds(A.Concat(family))
    requires Sound(a) && Untouched(a, family[0].sequence)
    requires forall c :: c in run ==> A.Traffic(family, c)
    requires forall c :: c in family ==> c in run
    ensures i < |run| && ReplyAt(a, run, i) == Complete(A.Expected(family))
    ensures After(a, run) == Assembler(family[0].sequence, map[])
  {
    assert A.Seen(family, run) == Below(|family|);
    AssemblyFollowsSeen(a, family, run);
    assert run[..0] == [] && run[..|run|] == run && 0 in Below(|family|);
    i := Rises((n: nat) => n <= |run| && A.Seen(family, run[..n]) == Below(|family|), 0, |run|);
    CompletedExactlyOnce(a, family, run, i);
  }

  /** Over every run completed snapshots carry strictly increasing sequences. */
  lemma CompletionsIncrease(a: Assembler, run: seq<Chunk>, i: nat, j: nat)
    requires Sound(a) && i < j < |run|
    requires ReplyAt(a, run, i).Complete? && ReplyAt(a, run, j).Complete?
    ensures ReplyAt(a, run, i).snapshot.sequence < ReplyAt(a, run, j).snapshot.sequence
  {
    RunSound(a, run[..i]);
    CompletedRecords(After(a, run[..i]), run[i]);
    assert run[..i + 1][..i] == run[..i];
    RunSound(a, run[..i + 1]);
    CompletedRises(a, run, i + 1, j);
    CompletionMatchesChunk(After(a, run[..j]), run[j]);
  }

  lemma CompletedRecords(a: Assembler, chunk: Chunk)
    requires Sound(a) && Push(a, chunk).reply.Complete?
    ensures Push(a, chunk).assembler.lastCompleted == Push(a, chunk).reply.snapshot.sequence == chunk.sequence
  {
    CompletionExactly(a, chunk);
    SnapshotIsFinished(a, chunk);
  }

  lemma {:induction false} CompletedRises(a: Assembler, run: seq<Chunk>, i: nat, j: nat)
    requires Sound(a) && i <= j <= |run|
    ensures After(a, run[..i]).lastCompleted <= After(a, run[..j]).lastCompleted
  {
    if i < j {
      CompletedRises(a, run, i, j - 1);
      RunSound(a, run[..j - 1]);
      PushSound(After(a, run[..j - 1]), run[j - 1]);
      assert run[..j][..j - 1] == run[..j - 1];
    }
  }
}
