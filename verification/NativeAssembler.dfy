/** The native client's snapshot assembler, which keeps up to four incomplete snapshots. */
module NativeAssembler {
  import opened Basics
  import opened SnapshotWire

  const MAX_INCOMPLETE_SNAPSHOTS: nat := 4

  datatype Pending = Pending(
    serverTick: u64,
    stateVersion: u64,
    acknowledged: u32,
    count: u16,
    chunks: map<nat, seq<Entity>>)

  datatype Assembler = Assembler(lastCompleted: u32, pending: map<u32, Pending>)

  datatype AssemblyError =
    | InvalidSnapshotChunk
    | InconsistentSnapshotMetadata
    | DuplicateSnapshotChunk(sequence: u32, index: u16)
    | DuplicateSnapshotEntity

  datatype Reply = Quiet | Complete(snapshot: Snapshot) | Refused(error: AssemblyError)

  datatype Step = Step(assembler: Assembler, reply: Reply)

  const EMPTY := Assembler(0, map[])

  lemma LeastExists(s: set<u32>) returns (k: u32)
    requires s != {}
    ensures k in s && forall j :: j in s ==> k <= j
  {
    var x :| x in s;
    k := x;
    if s - {x} != {} {
      var other := LeastExists(s - {x});
      k := if other < x then other else x;
    }
    forall j | j in s ensures k <= j {
      assert j == x || j in s - {x};
    }
  }

  function Oldest(s: set<u32>): (k: u32)
    requires s != {}
    ensures k in s && forall j :: j in s ==> k <= j
  {
    assert exists k :: k in s && forall j :: j in s ==> k <= j by { var k := LeastExists(s); }
    var k :| k in s && forall j :: j in s ==> k <= j;
    k
  }

  /** A new sequence pushes out the oldest incomplete snapshot when all four places are taken. */
  function MakeRoom(pending: map<u32, Pending>, sequence: u32): map<u32, Pending> {
    if sequence !in pending && |pending| == MAX_INCOMPLETE_SNAPSHOTS then pending - {Oldest(pending.Keys)} else pending
  }

  function Entry(pending: map<u32, Pending>, chunk: Chunk): Pending {
    if chunk.sequence in pending then pending[chunk.sequence]
    else Pending(chunk.serverTick, chunk.stateVersion, chunk.acknowledged, chunk.count, map[])
  }

  predicate SameMetadata(chunk: Chunk, entry: Pending) {
    && entry.serverTick == chunk.serverTick
    && entry.stateVersion == chunk.stateVersion
    && entry.acknowledged == chunk.acknowledged
    && entry.count == chunk.count
  }

  function Push(a: Assembler, chunk: Chunk): Step {
    if !chunk.Validate() then Step(a, Refused(InvalidSnapshotChunk))
    else if chunk.sequence <= a.lastCompleted then Step(a, Quiet)
    else
      var room := MakeRoom(a.pending, chunk.sequence);
      Store(a.lastCompleted, room, Entry(room, chunk), chunk)
  }

  function Store(lastCompleted: u32, pending: map<u32, Pending>, entry: Pending, chunk: Chunk): Step {
    if !SameMetadata(chunk, entry) then
      Step(Assembler(lastCompleted, pending[chunk.sequence := entry]), Refused(InconsistentSnapshotMetadata))
    else if chunk.index in entry.chunks then
      Step(Assembler(lastCompleted, pending[chunk.sequence := entry]),
           Refused(DuplicateSnapshotChunk(chunk.sequence, chunk.index)))
    else
      var grown := entry.(chunks := entry.chunks[chunk.index := chunk.entities]);
      if |grown.chunks| != grown.count then Step(Assembler(lastCompleted, pending[chunk.sequence := grown]), Quiet)
      else Finish(lastCompleted, pending - {chunk.sequence}, grown, chunk.sequence)
  }

  function Finish(lastCompleted: u32, others: map<u32, Pending>, entry: Pending, sequence: u32): Step {
    var entities := Flatten(entry.chunks, entry.count);
    if DistinctIds(entities) then
      Step(Assembler(sequence, map s | s in others && s > sequence :: others[s]),
           Complete(Snapshot(sequence, entry.serverTick, entry.stateVersion, entry.acknowledged, entities)))
    else Step(Assembler(lastCompleted, others), Refused(DuplicateSnapshotEntity))
  }

  /** A completed snapshot carries the sequence and version of the chunk that completed it. */
  lemma CompletionMatchesChunk(a: Assembler, chunk: Chunk)
    requires Push(a, chunk).reply.Complete?
    ensures var snapshot := Push(a, chunk).reply.snapshot;
            && snapshot.sequence == chunk.sequence > a.lastCompleted
            && snapshot.stateVersion == chunk.stateVersion
            && snapshot.serverTick == chunk.serverTick
            && DistinctIds(snapshot.entities)
  {
  }

  /** The indices held of a snapshot. */
  function HeldIndices(a: Assembler, sequence: u32): set<nat> {
    if sequence in a.pending then a.pending[sequence].chunks.Keys else {}
  }

  /** A snapshot completes only when, with the arriving index, every index below its count is held. */
  lemma CompletionWaits(a: Assembler, chunk: Chunk)
    requires Push(a, chunk).reply.Complete?
    requires forall i :: i in HeldIndices(a, chunk.sequence) ==> i < chunk.count
    ensures HeldIndices(a, chunk.sequence) + {chunk.index} == Below(chunk.count)
  {
    var entry := Entry(MakeRoom(a.pending, chunk.sequence), chunk);
    var chunks := entry.chunks[chunk.index := chunk.entities];
    assert chunks.Keys == HeldIndices(a, chunk.sequence) + {chunk.index} && |chunks.Keys| == |chunks|;
    IndicesComplete(chunks.Keys, chunk.count);
  }

  lemma PutAgain<K, V>(m: map<K, V>, k: K, v: V, w: V)
    ensures m[k := v][k := w] == m[k := w] && m[k := w] - {k} == m - {k}
  {
  }

  class SnapshotAssembler {
    var lastCompleted: u32
    var pending: map<u32, Pending>

    function View(): Assembler
      reads this
    {
      Assembler(lastCompleted, pending)
    }

    constructor ()
      ensures View() == EMPTY
    {
      lastCompleted, pending := 0, map[];
    }

    method PushChunk(chunk: Chunk) returns (reply: Reply)
      modifies this
      ensures Step(View(), reply) == Push(old(View()), chunk)
      ensures reply.Complete? && (forall i :: i in HeldIndices(old(View()), chunk.sequence) ==> i < chunk.count) ==>
                HeldIndices(old(View()), chunk.sequence) + {chunk.index} == Below(chunk.count)
    {
      ghost var before := View();
      if Push(before, chunk).reply.Complete? && forall i :: i in HeldIndices(before, chunk.sequence) ==> i < chunk.count {
        CompletionWaits(before, chunk);
      }
      if !chunk.Validate() { return Refused(InvalidSnapshotChunk); }
      if chunk.sequence <= lastCompleted { return Quiet; }
      if chunk.sequence !in pending && |pending| == MAX_INCOMPLETE_SNAPSHOTS {
        pending := pending - {Oldest(pending.Keys)};
      }
      reply := StoreChunk(Entry(pending, chunk), chunk);
    }

    method StoreChunk(entry: Pending, chunk: Chunk) returns (reply: Reply)
      modifies this
      ensures Step(View(), reply) == Store(old(lastCompleted), old(pending), entry, chunk)
    {
      ghost var others := pending;
      PutAgain(others, chunk.sequence, entry, entry.(chunks := entry.chunks[chunk.index := chunk.entities]));
      pending := pending[chunk.sequence := entry];
      if !SameMetadata(chunk, entry) { return Refused(InconsistentSnapshotMetadata); }
      if chunk.index in entry.chunks { return Refused(DuplicateSnapshotChunk(chunk.sequence, chunk.index)); }
      var grown := entry.(chunks := entry.chunks[chunk.index := chunk.entities]);
      pending := pending[chunk.sequence := grown];
      if |grown.chunks| != grown.count { return Quiet; }
      pending := pending - {chunk.sequence};
      reply := FinishEntry(grown, chunk.sequence);
    }

    method FinishEntry(entry: Pending, sequence: u32) returns (reply: Reply)
      modifies this
      ensures Step(View(), reply) == Finish(old(lastCompleted), old(pending), entry, sequence)
    {
      var entities, unique := Gather(entry.chunks, entry.count);
      if !unique { return Refused(DuplicateSnapshotEntity); }
      lastCompleted := sequence;
      pending := map s | s in pending && s > sequence :: pending[s];
      return Complete(Snapshot(sequence, entry.serverTick, entry.stateVersion, entry.acknowledged, entities));
    }
  }
}
