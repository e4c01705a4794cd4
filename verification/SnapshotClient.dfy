/**
 * The private-life snapshot client: chunks are admitted only at the bound route version, later
 * versions wait in a bounded buffer, and a snapshot counts only with its single expected player.
 */
module SnapshotClient {
  import opened Basics
  import opened RouteProtocol
  import opened SnapshotWire
  import N = NativeAssembler

  const MAX_BUFFERED_CHUNKS: nat := 128
  const RUN_ENTITY_ID_STRIDE: nat := 100_000
  const PLAYER_ENTITY_ID_OFFSET: nat := 10_000

  // ----- the expected player identity -----

  function PrivatePlayerEntityId(generation: u64): Option<u64> {
    if generation == 0 then None
    else
      var id := (generation - 1) * RUN_ENTITY_ID_STRIDE + PLAYER_ENTITY_ID_OFFSET;
      if id <= U64_MAX then Some(id) else None
  }

  /** The first eight bytes of the character identity, never zero. */
  function HallPlayerEntityId(character: Id): u64 {
    Max(character % 0x1_0000_0000_0000_0000, 1)
  }

  function LocalEntityId(route: RouteState): Option<u64> {
    if route.scene.LanternHalls? then Some(HallPlayerEntityId(route.characterId))
    else PrivatePlayerEntityId(route.actorGeneration)
  }

  /** Different actor generations never share a dungeon player identity. */
  lemma PrivateIdsAreDistinct(a: u64, b: u64)
    requires PrivatePlayerEntityId(a).Some? && PrivatePlayerEntityId(b).Some?
    ensures PrivatePlayerEntityId(a) == PrivatePlayerEntityId(b) <==> a == b
    ensures (PrivatePlayerEntityId(a).value - PLAYER_ENTITY_ID_OFFSET) / RUN_ENTITY_ID_STRIDE + 1 == a
  {
  }

  // ----- the ordered buffer -----

  datatype Key = Key(version: u64, sequence: u32, index: u16) {
    /** Lexicographic order. */
    predicate Le(other: Key) {
      version < other.version
      || (version == other.version
          && (sequence < other.sequence || (sequence == other.sequence && index <= other.index)))
    }
  }

  function KeyOf(chunk: Chunk): Key {
    Key(chunk.stateVersion, chunk.sequence, chunk.index)
  }

  type Buffer = map<Key, Chunk>

  lemma FirstExists(s: set<Key>) returns (k: Key)
    requires s != {}
    ensures k in s && forall j :: j in s ==> k.Le(j)
  {
    var x :| x in s;
    k := x;
    if s - {x} != {} {
      var other := FirstExists(s - {x});
      k := if other.Le(x) then other else x;
    }
    forall j | j in s ensures k.Le(j) {
      assert j == x || j in s - {x};
    }
  }

  function First(s: set<Key>): (k: Key)
    requires s != {}
    ensures k in s && forall j :: j in s ==> k.Le(j)
  {
    assert exists k :: k in s && forall j :: j in s ==> k.Le(j) by { var k := FirstExists(s); }
    var k :| k in s && forall j :: j in s ==> k.Le(j);
    k
  }

  /** The buffered chunks in ascending key order. */
  function Sorted(b: Buffer): seq<Chunk>
    decreases |b|
  {
    if |b| == 0 then []
    else
      var k := First(b.Keys);
      assert |b - {k}| < |b| by { assert (b - {k}).Keys == b.Keys - {k}; }
      [b[k]] + Sorted(b - {k})
  }

  function AtVersion(b: Buffer, version: u64): Buffer {
    map k | k in b && k.version == version :: b[k]
  }

  function AfterVersion(b: Buffer, version: u64): Buffer {
    map k | k in b && k.version > version :: b[k]
  }

  function Insert(b: Buffer, chunk: Chunk): Buffer {
    var room := if |b| == MAX_BUFFERED_CHUNKS then b - {First(b.Keys)} else b;
    room[KeyOf(chunk) := chunk]
  }

  // ----- the client -----

  datatype Client = Client(
    generation: Option<u64>,
    version: Option<u64>,
    localId: Option<u64>,
    assembler: N.Assembler,
    buffered: Buffer,
    latest: Option<Snapshot>)

  /** The client after a call, and whether the call succeeded. */
  datatype Step = Step(client: Client, ok: bool)

  const EMPTY := Client(None, None, None, N.EMPTY, map[], None)

  function Players(entities: seq<Entity>): seq<Entity> {
    if entities == [] then []
    else (if entities[0].kind.Player? then [entities[0]] else []) + Players(entities[1..])
  }

  predicate OnlyPlayerIs(entities: seq<Entity>, id: u64) {
    |Players(entities)| == 1 && Players(entities)[0].id == id
  }

  function ApplyBound(c: Client, chunk: Chunk): Step {
    if Some(chunk.stateVersion) != c.version then Step(c, false)
    else
      var pushed := N.Push(c.assembler, chunk);
      var fed := c.(assembler := pushed.assembler);
      match pushed.reply
      case Refused(_) => Step(fed, false)
      case Quiet => Step(fed, true)
      case Complete(snapshot) =>
        if c.localId.None? || !OnlyPlayerIs(snapshot.entities, c.localId.value) then Step(fed, false)
        else Step(fed.(latest := Some(snapshot)), true)
  }

  /** Applies chunks in turn, stopping at the first failure. */
  function Deliver(c: Client, chunks: seq<Chunk>): Step
    decreases |chunks|
  {
    if chunks == [] then Step(c, true)
    else
      var step := ApplyBound(c, chunks[0]);
      if step.ok then Deliver(step.client, chunks[1..]) else step
  }

  /** A new actor or player identity starts over; the route's version moves the gate. */
  function Rebind(c: Client, route: RouteState, localId: u64): Client {
    var kept := if c.generation == Some(route.actorGeneration) && c.localId == Some(localId) then c
                else c.(generation := Some(route.actorGeneration), localId := Some(localId), assembler := N.EMPTY, latest := None);
    kept.(version := Some(route.stateVersion), buffered := AfterVersion(c.buffered, route.stateVersion))
  }

  function BindRoute(c: Client, route: Option<RouteState>): Step {
    if route.None? then Step(EMPTY, true)
    else if LocalEntityId(route.value).None? then Step(c, false)
    else Deliver(Rebind(c, route.value, LocalEntityId(route.value).value), Sorted(AtVersion(c.buffered, route.value.stateVersion)))
  }

  function Ingest(c: Client, chunk: Chunk): Step {
    if !chunk.Validate() then Step(c, false)
    else if c.version.Some? && chunk.stateVersion < c.version.value then Step(c, true)
    else if c.version == Some(chunk.stateVersion) then ApplyBound(c, chunk)
    else Step(c.(buffered := Insert(c.buffered, chunk)), true)
  }

  /** Ingests queued chunks in turn, stopping at the first failure. */
  function IngestQueue(c: Client, chunks: seq<Chunk>): Step
    decreases |chunks|
  {
    if chunks == [] then Step(c, true)
    else
      var step := Ingest(c, chunks[0]);
      if step.ok then IngestQueue(step.client, chunks[1..]) else step
  }

  class CorePrivateSnapshotClient {
    var generation: Option<u64>
    var version: Option<u64>
    var localId: Option<u64>
    var assembler: N.SnapshotAssembler
    var buffered: Buffer
    var latest: Option<Snapshot>

    function View(): Client
      reads this, assembler
    {
      Client(generation, version, localId, assembler.View(), buffered, latest)
    }

    constructor ()
      ensures View() == EMPTY && fresh(assembler)
    {
      generation, version, localId, latest := None, None, None, None;
      assembler := new N.SnapshotAssembler();
      buffered := map[];
    }

    method ResetTransport()
      modifies this
      ensures View() == EMPTY && fresh(assembler)
    {
      generation, version, localId, latest := None, None, None, None;
      assembler := new N.SnapshotAssembler();
      buffered := map[];
    }

    method Bind(route: Option<RouteState>) returns (ok: bool)
      modifies this, assembler
      ensures Step(View(), ok) == BindRoute(old(View()), route)
      ensures assembler == old(assembler) || fresh(assembler)
    {
      if route.None? {
        ResetTransport();
        return true;
      }
      var state := route.value;
      var id := LocalEntityId(state);
      if id.None? { return false; }
      if generation != Some(state.actorGeneration) || localId != id {
        generation, localId := Some(state.actorGeneration), id;
        assembler := new N.SnapshotAssembler();
        latest := None;
      }
      version := Some(state.stateVersion);
      var ready := Sorted(AtVersion(buffered, state.stateVersion));
      buffered := AfterVersion(buffered, state.stateVersion);
      assert View() == Rebind(old(View()), state, id.value);
      ok := DeliverAll(ready);
    }

    method DeliverAll(ready: seq<Chunk>) returns (ok: bool)
      modifies this, assembler
      ensures Step(View(), ok) == Deliver(old(View()), ready)
      ensures assembler == old(assembler)
    {
      ok := true;
      for i := 0 to |ready|
        invariant assembler == old(assembler)
        invariant Deliver(View(), ready[i..]) == Deliver(old(View()), ready)
      {
        assert ready[i..][0] == ready[i] && ready[i..][1..] == ready[i + 1..];
        ok := ApplyBoundChunk(ready[i]);
        if !ok { return; }
      }
      return true;
    }

    method IngestChunk(chunk: Chunk) returns (ok: bool)
      modifies this, assembler
      ensures Step(View(), ok) == Ingest(old(View()), chunk)
      ensures assembler == old(assembler)
    {
      if !chunk.Validate() { return false; }
      if version.Some? && chunk.stateVersion < version.value { return true; }
      if version == Some(chunk.stateVersion) {
        ok := ApplyBoundChunk(chunk);
        return;
      }
      if |buffered| == MAX_BUFFERED_CHUNKS {
        buffered := buffered - {First(buffered.Keys)};
      }
      buffered := buffered[KeyOf(chunk) := chunk];
      return true;
    }

    method ApplyBoundChunk(chunk: Chunk) returns (ok: bool)
      modifies this`latest, assembler
      ensures Step(View(), ok) == ApplyBound(old(View()), chunk)
    {
      if Some(chunk.stateVersion) != version { return false; }
      var reply := assembler.PushChunk(chunk);
      match reply {
        case Refused(_) => return false;
        case Quiet => return true;
        case Complete(snapshot) =>
          if localId.None? || !OnlyPlayerIs(snapshot.entities, localId.value) { return false; }
          latest := Some(snapshot);
          return true;
      }
    }
  }
}
