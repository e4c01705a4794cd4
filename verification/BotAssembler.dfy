/** The bot's snapshot assembler: reassembles one snapshot at a time from datagram chunks. */
module BotAssembler {
  import opened Basics
  import opened SnapshotWire

  datatype Pending = Pending(
    sequence: u32,
    serverTick: u64,
    stateVersion: u64,
    acknowledged: u32,
    count: u16,
    chunks: map<nat, seq<Entity>>)

  datatype AssemblyError =
    | InvalidSnapshotChunk
    | InconsistentSnapshotMetadata
    | ConflictingSnapshotDuplicate
    | DuplicateSnapshotEntity

  datatype Reply = Quiet | Complete(snapshot: Snapshot) | Refused(error: AssemblyError)

  datatype Assembler = Assembler(completed: u32, pending: Option<Pending>)

  datatype Step = Step(assembler: Assembler, reply: Reply)

  predicate SameMetadata(chunk: Chunk, pending: Pending) {
    && chunk.serverTick == pending.serverTick
    && chunk.stateVersion == pending.stateVersion
    && chunk.acknowledged == pending.acknowledged
    && chunk.count == pending.count
  }

  function Opened(chunk: Chunk): Pending {
    Pending(chunk.sequence, chunk.serverTick, chunk.stateVersion, chunk.acknowledged, chunk.count, map[])
  }

  function Ingest(a: Assembler, chunk: Chunk): Step {
    if !chunk.Validate() then Step(a, Refused(InvalidSnapshotChunk))
    else if chunk.sequence <= a.completed then Step(a, Quiet)
    else if a.pending.Some? && chunk.sequence < a.pending.value.sequence then Step(a, Quiet)
    else if a.pending.None? || chunk.sequence > a.pending.value.sequence then Store(a.completed, Opened(chunk), chunk)
    else Store(a.completed, a.pending.value, chunk)
  }

  /** Adds a chunk to the pending snapshot it belongs to, completing it when no index is missing. */
  function Store(completed: u32, pending: Pending, chunk: Chunk): Step {
    if !SameMetadata(chunk, pending) then
      Step(Assembler(completed, Some(pending)), Refused(InconsistentSnapshotMetadata))
    else if chunk.index in pending.chunks then
      Step(Assembler(completed, Some(pending)),
           if pending.chunks[chunk.index] == chunk.entities then Quiet else Refused(ConflictingSnapshotDuplicate))
    else
      var grown := pending.(chunks := pending.chunks[chunk.index := chunk.entities]);
      if |grown.chunks| != grown.count then Step(Assembler(completed, Some(grown)), Quiet)
      else Finish(completed, grown)
  }

  function Finish(completed: u32, pending: Pending): Step {
    if DistinctIds(Flatten(pending.chunks, pending.count)) then
      Step(Assembler(pending.sequence, None), Complete(Whole(pending)))
    else Step(Assembler(completed, None), Refused(DuplicateSnapshotEntity))
  }

  function Whole(pending: Pending): Snapshot {
    Snapshot(pending.sequence, pending.serverTick, pending.stateVersion, pending.acknowledged,
             Flatten(pending.chunks, pending.count))
  }

  /** The buffered indices are in range and the sequence is newer than the last completed one. */
  predicate Sound(a: Assembler) {
    a.pending.Some? ==>
      && a.pending.value.sequence > a.completed
      && forall i :: i in a.pending.value.chunks ==> i < a.pending.value.count
  }

  lemma IngestSound(a: Assembler, chunk: Chunk)
    requires Sound(a)
    ensures Sound(Ingest(a, chunk).assembler)
  {
  }

  class BotSnapshotAssembler {
    var completed: u32
    var pending: Option<Pending>

    function View(): Assembler
      reads this
    {
      Assembler(completed, pending)
    }

    constructor ()
      ensures View() == Assembler(0, None)
    {
      completed, pending := 0, None;
    }

    method IngestChunk(chunk: Chunk) returns (reply: Reply)
      requires Sound(View())
      modifies this
      ensures Step(View(), reply) == Ingest(old(View()), chunk)
      ensures Sound(View())
    {
      if !chunk.Validate() { return Refused(InvalidSnapshotChunk); }
      if chunk.sequence <= completed { return Quiet; }
      if pending.None? || chunk.sequence > pending.value.sequence {
        pending := Some(Opened(chunk));
      }
      var current := pending.value;
      if chunk.sequence < current.sequence { return Quiet; }
      if !SameMetadata(chunk, current) { return Refused(InconsistentSnapshotMetadata); }
      if chunk.index in current.chunks {
        if current.chunks[chunk.index] == chunk.entities { return Quiet; }
        return Refused(ConflictingSnapshotDuplicate);
      }
      var chunks := current.chunks[chunk.index := chunk.entities];
      if |chunks| != current.count {
        pending := Some(current.(chunks := chunks));
        return Quiet;
      }
      pending := None;
      var entities, unique := Gather(chunks, current.count);
      if !unique { return Refused(DuplicateSnapshotEntity); }
      completed := current.sequence;
      return Complete(Snapshot(current.sequence, current.serverTick, current.stateVersion, current.acknowledged, entities));
    }
  }
}
