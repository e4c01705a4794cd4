/** Gameplay snapshots on the wire: entities, chunks and their validity. */
module SnapshotWire {
  import opened Basics

  const MAX_SNAPSHOT_ENTITIES_PER_CHUNK: nat := 32
  const MAX_SNAPSHOT_CHUNKS: nat := 64

  datatype EntityKind =
    | Player | Enemy | Boss | Loot | Objective | FriendlyProjectile | HostileProjectile | PersonalPickup

  datatype Entity = Entity(
    id: u64,
    kind: EntityKind,
    x: i32,
    y: i32,
    velocityX: i32,
    velocityY: i32,
    sourceEntityId: u64,
    sourceInputSequence: u32,
    sourceProjectileOrdinal: u16,
    currentHealth: u32,
    maximumHealth: u32,
    stateFlags: u32)
  {
    predicate Alive() { stateFlags % 2 == 1 }

    predicate Eligible() { stateFlags / 2 % 2 == 1 }

    predicate Collected() { stateFlags / 4 % 2 == 1 }

    predicate HasHealth() { kind.Player? || kind.Enemy? || kind.Boss? }

    predicate Validate() {
      && id != 0
      && (if HasHealth() then maximumHealth != 0 && currentHealth <= maximumHealth
          else maximumHealth == 0 && currentHealth == 0)
      && (if kind.FriendlyProjectile? then sourceEntityId != 0 && sourceInputSequence != 0
          else sourceEntityId == 0 && sourceInputSequence == 0 && sourceProjectileOrdinal == 0)
    }
  }

  predicate DistinctIds(entities: seq<Entity>) {
    forall i, j :: 0 <= i < j < |entities| ==> entities[i].id != entities[j].id
  }

  datatype Chunk = Chunk(
    sequence: u32,
    serverTick: u64,
    stateVersion: u64,
    acknowledged: u32,
    index: u16,
    count: u16,
    entities: seq<Entity>)
  {
    predicate Validate() {
      && sequence != 0
      && 0 < count <= MAX_SNAPSHOT_CHUNKS
      && index < count
      && |entities| <= MAX_SNAPSHOT_ENTITIES_PER_CHUNK
      && (forall e :: e in entities ==> e.Validate())
      && DistinctIds(entities)
    }
  }

  /** A complete snapshot, its entities in chunk order. */
  datatype Snapshot = Snapshot(
    sequence: u32,
    serverTick: u64,
    stateVersion: u64,
    acknowledged: u32,
    entities: seq<Entity>)

  /** The entities of the chunks with an index below `n`, in index order. */
  function Flatten(chunks: map<nat, seq<Entity>>, n: nat): seq<Entity> {
    if n == 0 then []
    else Flatten(chunks, n - 1) + if n - 1 in chunks then chunks[n - 1] else []
  }

  lemma {:induction false} FlattenPrefix(chunks: map<nat, seq<Entity>>, i: nat, n: nat)
    requires i <= n
    ensures Flatten(chunks, i) <= Flatten(chunks, n)
  {
    if i < n {
      FlattenPrefix(chunks, i, n - 1);
    }
  }

  /** The numbers below `n`. */
  function Below(n: nat): (s: set<nat>)
    ensures forall i: nat :: i in s <==> i < n
    ensures |s| == n
  {
    if n == 0 then {} else Below(n - 1) + {n - 1}
  }

  /** Pigeonhole: `n` distinct indices, all below `n`, are every index below `n`. */
  lemma IndicesComplete(keys: set<nat>, n: nat)
    requires forall i :: i in keys ==> i < n
    ensures |keys| <= n
    ensures |keys| == n <==> keys == Below(n)
  {
    assert keys <= Below(n);
    SubsetSize(keys, Below(n));
  }

  lemma {:induction false} SubsetSize<T>(a: set<T>, b: set<T>)
    requires a <= b
    ensures |a| <= |b|
    ensures |a| == |b| ==> a == b
  {
    if a != {} {
      var x :| x in a;
      SubsetSize(a - {x}, b - {x});
      assert a == (a - {x}) + {x} && b == (b - {x}) + {x};
    }
  }

  lemma RepeatSpoils(entities: seq<Entity>, repeat: Entity, before: seq<Entity>, next: seq<Entity>, k: nat)
    requires k < |next| && repeat == next[k] && entities == before + next[..k]
    requires exists e :: e in entities && e.id == repeat.id
    ensures exists i, j :: 0 <= i < j < |before + next| && (before + next)[i].id == (before + next)[j].id
  {
    var i :| 0 <= i < |entities| && entities[i].id == repeat.id;
    assert (before + next)[i] == entities[i];
    assert (before + next)[|entities|] == repeat;
  }

  /** Walks the chunks in index order, collecting entities until an identity repeats. */
  method Gather(chunks: map<nat, seq<Entity>>, count: nat) returns (entities: seq<Entity>, unique: bool)
    ensures unique <==> DistinctIds(Flatten(chunks, count))
    ensures unique ==> entities == Flatten(chunks, count)
  {
    var ids: set<u64> := {};
    entities := [];
    for index := 0 to count
      invariant entities == Flatten(chunks, index) && DistinctIds(entities)
      invariant ids == set e | e in entities :: e.id
    {
      var next := if index in chunks then chunks[index] else [];
      assert Flatten(chunks, index + 1) == Flatten(chunks, index) + next;
      for k := 0 to |next|
        invariant entities == Flatten(chunks, index) + next[..k] && DistinctIds(entities)
        invariant ids == set e | e in entities :: e.id
      {
        if next[k].id in ids {
          RepeatSpoils(entities, next[k], Flatten(chunks, index), next, k);
          FlattenPrefix(chunks, index + 1, count);
          return entities, false;
        }
        ids := ids + {next[k].id};
        entities := entities + [next[k]];
      }
      assert next[..|next|] == next;
    }
    return entities, true;
  }
}
