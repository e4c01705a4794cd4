/**
 * What the snapshot client keeps over whole runs, alone and driven by the route model, and why
 * chunks that arrive before their route version lose nothing.
 */
module SnapshotClientRuns {
  import opened Basics
  import opened RouteProtocol
  import opened SnapshotWire
  import opened SnapshotClient
  import N = NativeAssembler
  import R = RouteModel
  import RR = RouteRuns

  // ----- early buffering equals late delivery -----

  /** The chunks, filed under their keys; a later chunk replaces an earlier one of the same key. */
  function Filed(chunks: seq<Chunk>): Buffer {
    if chunks == [] then map[] else map[KeyOf(chunks[0]) := chunks[0]] + Filed(chunks[1..])
  }

  predicate DistinctKeys(chunks: seq<Chunk>) {
    chunks == [] || (KeyOf(chunks[0]) !in Filed(chunks[1..]) && DistinctKeys(chunks[1..]))
  }

  /** Every chunk is valid, of one version, and under a key of its own. */
  predicate OneVersion(chunks: seq<Chunk>, version: u64) {
    DistinctKeys(chunks) && forall chunk :: chunk in chunks ==> chunk.Validate() && chunk.stateVersion == version
  }

  predicate Keyed(b: Buffer) {
    forall k :: k in b ==> KeyOf(b[k]) == k
  }

  /** The chunk waits in the buffer, under its own key. */
  predicate Holds(b: Buffer, chunk: Chunk) {
    KeyOf(chunk) in b && b[KeyOf(chunk)] == chunk
  }

  lemma PutSize(k: Key, chunk: Chunk, rest: Buffer)
    requires k !in rest
    ensures |map[k := chunk] + rest| == |rest| + 1
  {
    assert (map[k := chunk] + rest).Keys == rest.Keys + {k};
  }

  lemma {:induction false} FiledHolds(chunks: seq<Chunk>)
    requires DistinctKeys(chunks)
    ensures Keyed(Filed(chunks)) && |Filed(chunks)| == |chunks|
    ensures forall chunk :: chunk in chunks <==> Holds(Filed(chunks), chunk)
  {
    if chunks != [] {
      var k, rest := KeyOf(chunks[0]), Filed(chunks[1..]);
      FiledHolds(chunks[1..]);
      PutSize(k, chunks[0], rest);
      forall chunk ensures chunk in chunks <==> Holds(Filed(chunks), chunk) {
        assert chunk in chunks <==> chunk == chunks[0] || chunk in chunks[1..];
        assert KeyOf(chunk) != k ==> (Holds(Filed(chunks), chunk) <==> Holds(rest, chunk));
      }
    }
  }

  lemma SameHoldings(a: Buffer, b: Buffer)
    requires Keyed(a) && Keyed(b)
    requires forall chunk :: Holds(a, chunk) <==> Holds(b, chunk)
    ensures a == b
  {
    forall k | k in a ensures k in b && b[k] == a[k] {
      assert Holds(b, a[k]);
    }
    forall k | k in b ensures k in a {
      assert Holds(a, b[k]);
    }
  }

  /** What is filed does not depend on the order of arrival. */
  lemma FiledIgnoresOrder(a: seq<Chunk>, b: seq<Chunk>)
    requires DistinctKeys(a) && DistinctKeys(b)
    requires forall chunk :: chunk in a <==> chunk in b
    ensures Filed(a) == Filed(b)
  {
    FiledHolds(a);
    FiledHolds(b);
    SameHoldings(Filed(a), Filed(b));
  }

  /** The sorted list is exactly the buffered chunks. */
  lemma {:induction false} SortedHolds(b: Buffer)
    requires Keyed(b)
    ensures |Sorted(b)| == |b|
    ensures forall chunk :: chunk in Sorted(b) <==> Holds(b, chunk)
    decreases |b|
  {
    if |b| > 0 {
      var k := First(b.Keys);
      var rest := b - {k};
      assert rest.Keys == b.Keys - {k};
      SortedHolds(rest);
      forall chunk ensures chunk in Sorted(b) <==> Holds(b, chunk) {
        assert chunk in Sorted(b) <==> chunk == b[k] || chunk in Sorted(rest);
        assert KeyOf(chunk) != k ==> (Holds(b, chunk) <==> Holds(rest, chunk));
      }
    }
  }

  /** The chunk comes first by version, then sequence, then index. */
  predicate ReplayedBefore(a: Chunk, b: Chunk) {
    || a.stateVersion < b.stateVersion
    || (a.stateVersion == b.stateVersion && (a.sequence < b.sequence || (a.sequence == b.sequence && a.index < b.index)))
  }

  /** The sorted list ascends strictly in (version, sequence, index). */
  lemma {:induction false} SortedAscends(b: Buffer, i: nat, j: nat)
    requires Keyed(b) && i < j < |b|
    ensures |Sorted(b)| == |b|
    ensures KeyOf(Sorted(b)[i]).Le(KeyOf(Sorted(b)[j])) && KeyOf(Sorted(b)[i]) != KeyOf(Sorted(b)[j])
    ensures ReplayedBefore(Sorted(b)[i], Sorted(b)[j])
    decreases |b|
  {
    var k := First(b.Keys);
    var rest := b - {k};
    assert rest.Keys == b.Keys - {k};
    SortedHolds(b);
    SortedHolds(rest);
    assert Sorted(b)[j] == Sorted(rest)[j - 1];
    if i > 0 {
      SortedAscends(rest, i - 1, j - 1);
    } else {
      assert Holds(rest, Sorted(rest)[j - 1]);
    }
  }

  lemma PutFirst<K, V>(m: map<K, V>, k: K, v: V, n: map<K, V>)
    ensures m[k := v] + n == m + (map[k := v] + n)
  {
  }

  lemma InsertWithRoom(b: Buffer, chunk: Chunk)
    requires |b| < MAX_BUFFERED_CHUNKS
    ensures Insert(b, chunk) == b[KeyOf(chunk) := chunk] && |Insert(b, chunk)| <= |b| + 1
  {
    assert b[KeyOf(chunk) := chunk].Keys == b.Keys + {KeyOf(chunk)};
  }

  /** Chunks newer than the bound version only fill the buffer. */
  lemma {:induction false} EarlyChunksWait(c: Client, chunks: seq<Chunk>, version: u64)
    requires forall chunk :: chunk in chunks ==> chunk.Validate() && chunk.stateVersion == version
    requires c.version.Some? ==> c.version.value < version
    requires |c.buffered| + |chunks| <= MAX_BUFFERED_CHUNKS
    ensures IngestQueue(c, chunks) == Step(c.(buffered := c.buffered + Filed(chunks)), true)
    decreases |chunks|
  {
    if chunks == [] {
      assert c.buffered + map[] == c.buffered;
    } else {
      var next := c.(buffered := Insert(c.buffered, chunks[0]));
      assert Ingest(c, chunks[0]) == Step(next, true);
      InsertWithRoom(c.buffered, chunks[0]);
      EarlyChunksWait(next, chunks[1..], version);
      PutFirst(c.buffered, KeyOf(chunks[0]), chunks[0], Filed(chunks[1..]));
    }
  }

  /** Chunks of the bound version go straight to the assembler. */
  lemma {:induction false} BoundChunksPass(c: Client, chunks: seq<Chunk>, version: u64)
    requires c.version == Some(version)
    requires forall chunk :: chunk in chunks ==> chunk.Validate() && chunk.stateVersion == version
    ensures IngestQueue(c, chunks) == Deliver(c, chunks)
    decreases |chunks|
  {
    if chunks != [] {
      var step := ApplyBound(c, chunks[0]);
      assert Ingest(c, chunks[0]) == step;
      BoundChunksPass(step.client, chunks[1..], version);
    }
  }

  /** Delivery stops at exactly the first chunk that fails, with what that chunk left. */
  lemma {:induction false} DeliverStops(c: Client, chunks: seq<Chunk>) returns (k: nat)
    ensures k <= |chunks|
    ensures forall i :: 0 <= i < k ==> ApplyBound(Deliver(c, chunks[..i]).client, chunks[i]).ok
    ensures if k == |chunks| then Deliver(c, chunks).ok
            else !Deliver(c, chunks).ok && Deliver(c, chunks) == ApplyBound(Deliver(c, chunks[..k]).client, chunks[k])
    decreases |chunks|
  {
    k := 0;
    if chunks != [] {
      var (step, rest) := (ApplyBound(c, chunks[0]), chunks[1..]);
      if step.ok {
        var inner := DeliverStops(step.client, rest);
        k := inner + 1;
        forall i | 0 <= i < k ensures ApplyBound(Deliver(c, chunks[..i]).client, chunks[i]).ok {
          if i > 0 {
            assert chunks[..i][1..] == rest[..i - 1];
          }
        }
        assert k < |chunks| ==> chunks[..k][1..] == rest[..inner];
      }
    }
  }

  /** So does a queue of ingested chunks. */
  lemma {:induction false} QueueStops(c: Client, chunks: seq<Chunk>) returns (k: nat)
    ensures k <= |chunks|
    ensures forall i :: 0 <= i < k ==> Ingest(IngestQueue(c, chunks[..i]).client, chunks[i]).ok
    ensures if k == |chunks| then IngestQueue(c, chunks).ok
            else !IngestQueue(c, chunks).ok && IngestQueue(c, chunks) == Ingest(IngestQueue(c, chunks[..k]).client, chunks[k])
    decreases |chunks|
  {
    k := 0;
    if chunks != [] {
      var (step, rest) := (Ingest(c, chunks[0]), chunks[1..]);
      if step.ok {
        var inner := QueueStops(step.client, rest);
        k := inner + 1;
        forall i | 0 <= i < k ensures Ingest(IngestQueue(c, chunks[..i]).client, chunks[i]).ok {
          if i > 0 {
            assert chunks[..i][1..] == rest[..i - 1];
          }
        }
        assert k < |chunks| ==> chunks[..k][1..] == rest[..inner];
      }
    }
  }

  lemma AtAfterFiled(b: Buffer, filed: Buffer, version: u64)
    requires forall k :: k in b ==> k.version != version
    requires forall k :: k in filed ==> k.version == version
    ensures AtVersion(b, version) == map[]
    ensures AtVersion(b + filed, version) == filed
    ensures AfterVersion(b + filed, version) == AfterVersion(b, version)
  {
  }

  lemma FiledVersion(chunks: seq<Chunk>, version: u64)
    requires OneVersion(chunks, version)
    ensures forall k :: k in Filed(chunks) ==> k.version == version
    ensures forall chunk :: chunk in Sorted(Filed(chunks)) <==> chunk in chunks
  {
    FiledHolds(chunks);
    SortedHolds(Filed(chunks));
    forall k | k in Filed(chunks) ensures k.version == version {
      assert Holds(Filed(chunks), Filed(chunks)[k]);
    }
  }

  /**
   * Chunks of a version that is not bound yet may arrive before the route does, in any order:
   * binding then replays them exactly as if they had arrived afterwards in (sequence, index) order,
   * up to and including a failure.
   */
  lemma EarlyEqualsLate(c: Client, chunks: seq<Chunk>, route: RouteState)
    requires OneVersion(chunks, route.stateVersion) && LocalEntityId(route).Some?
    requires c.version.Some? ==> c.version.value < route.stateVersion
    requires forall k :: k in c.buffered ==> k.version != route.stateVersion
    requires |c.buffered| + |chunks| <= MAX_BUFFERED_CHUNKS
    ensures BindRoute(IngestQueue(c, chunks).client, Some(route))
            == IngestQueue(BindRoute(c, Some(route)).client, Sorted(Filed(chunks)))
  {
    var id, version := LocalEntityId(route).value, route.stateVersion;
    EarlyChunksWait(c, chunks, version);
    FiledVersion(chunks, version);
    AtAfterFiled(c.buffered, Filed(chunks), version);
    BoundChunksPass(Rebind(c, route, id), Sorted(Filed(chunks)), version);
  }

  /** Two arrival orders of the same early chunks bind to the same client. */
  lemma EarlyOrderIsInvisible(c: Client, a: seq<Chunk>, b: seq<Chunk>, route: RouteState)
    requires OneVersion(a, route.stateVersion) && OneVersion(b, route.stateVersion)
    requires forall chunk :: chunk in a <==> chunk in b
    requires c.version.Some? ==> c.version.value < route.stateVersion
    requires |c.buffered| + |a| <= MAX_BUFFERED_CHUNKS
    ensures BindRoute(IngestQueue(c, a).client, Some(route)) == BindRoute(IngestQueue(c, b).client, Some(route))
  {
    FiledIgnoresOrder(a, b);
    FiledHolds(a);
    FiledHolds(b);
    EarlyChunksWait(c, a, route.stateVersion);
    EarlyChunksWait(c, b, route.stateVersion);
  }

  // ----- what every call keeps -----

  /** The buffer is bounded and keyed, lies beyond the bound version, and the latest snapshot is the player's own. */
  predicate Tidy(c: Client) {
    && |c.buffered| <= MAX_BUFFERED_CHUNKS
    && Keyed(c.buffered)
    && (c.generation.Some? <==> c.version.Some?) && (c.localId.Some? <==> c.version.Some?)
    && (c.version.Some? ==> forall k :: k in c.buffered ==> k.version > c.version.value)
    && (c.latest.Some? ==>
          && DistinctIds(c.latest.value.entities)
          && c.localId.Some? && OnlyPlayerIs(c.latest.value.entities, c.localId.value))
  }

  /** The latest snapshot is not newer than the bound version. */
  predicate Current(c: Client) {
    c.latest.Some? ==> c.version.Some? && c.latest.value.stateVersion <= c.version.value
  }

  /** Only the assembler and the latest snapshot may differ. */
  predicate SameBinding(c: Client, d: Client) {
    d == c.(assembler := d.assembler, latest := d.latest)
  }

  lemma ApplyBoundKeeps(c: Client, chunk: Chunk)
    ensures var d := ApplyBound(c, chunk).client;
            && SameBinding(c, d)
            && (d.latest != c.latest ==>
                  && d.latest.Some? && c.version == Some(d.latest.value.stateVersion)
                  && DistinctIds(d.latest.value.entities)
                  && c.localId.Some? && OnlyPlayerIs(d.latest.value.entities, c.localId.value))
  {
    if N.Push(c.assembler, chunk).reply.Complete? {
      N.CompletionMatchesChunk(c.assembler, chunk);
    }
  }

  lemma {:induction false} DeliverKeeps(c: Client, chunks: seq<Chunk>)
    ensures var d := Deliver(c, chunks).client;
            && SameBinding(c, d)
            && (Tidy(c) ==> Tidy(d))
            && (Tidy(c) && Current(c) ==> Current(d))
    decreases |chunks|
  {
    if chunks != [] {
      ApplyBoundKeeps(c, chunks[0]);
      DeliverKeeps(ApplyBound(c, chunks[0]).client, chunks[1..]);
    }
  }

  lemma RebindKeeps(c: Client, route: RouteState, id: u64)
    requires Tidy(c)
    ensures Tidy(Rebind(c, route, id))
    ensures Current(c) && (c.generation == Some(route.actorGeneration) && c.localId == Some(id) ==> c.version.value <= route.stateVersion)
            ==> Current(Rebind(c, route, id))
  {
    SubsetSize(AfterVersion(c.buffered, route.stateVersion).Keys, c.buffered.Keys);
  }

  /** The projection is not behind what the client is bound to. */
  predicate Ahead(c: Client, route: RouteState) {
    c.generation == Some(route.actorGeneration) && c.version.Some? ==> c.version.value <= route.stateVersion
  }

  lemma BindKeeps(c: Client, route: Option<RouteState>)
    requires Tidy(c)
    ensures Tidy(BindRoute(c, route).client)
    ensures Current(c) && (route.Some? ==> Ahead(c, route.value)) ==> Current(BindRoute(c, route).client)
  {
    if route.Some? && LocalEntityId(route.value).Some? {
      var bound := Rebind(c, route.value, LocalEntityId(route.value).value);
      RebindKeeps(c, route.value, LocalEntityId(route.value).value);
      DeliverKeeps(bound, Sorted(AtVersion(c.buffered, route.value.stateVersion)));
    }
  }

  lemma InsertKeeps(b: Buffer, chunk: Chunk)
    requires |b| <= MAX_BUFFERED_CHUNKS && Keyed(b)
    ensures |Insert(b, chunk)| <= MAX_BUFFERED_CHUNKS && Keyed(Insert(b, chunk))
    ensures forall k :: k in Insert(b, chunk) ==> k in b || k == KeyOf(chunk)
  {
    var room := if |b| == MAX_BUFFERED_CHUNKS then b - {First(b.Keys)} else b;
    if |b| == MAX_BUFFERED_CHUNKS {
      assert room.Keys == b.Keys - {First(b.Keys)};
    }
    assert Insert(b, chunk).Keys == room.Keys + {KeyOf(chunk)};
  }

  lemma IngestKeeps(c: Client, chunk: Chunk)
    requires Tidy(c)
    ensures var d := Ingest(c, chunk).client;
            Tidy(d) && SameBinding(c.(buffered := d.buffered), d) && (Current(c) ==> Current(d))
  {
    ApplyBoundKeeps(c, chunk);
    InsertKeeps(c.buffered, chunk);
  }

  lemma {:induction false} IngestQueueKeeps(c: Client, chunks: seq<Chunk>)
    requires Tidy(c)
    ensures var d := IngestQueue(c, chunks).client;
            Tidy(d) && SameBinding(c.(buffered := d.buffered), d) && (Current(c) ==> Current(d))
    decreases |chunks|
  {
    if chunks != [] {
      IngestKeeps(c, chunks[0]);
      IngestQueueKeeps(Ingest(c, chunks[0]).client, chunks[1..]);
    }
  }

  // ----- what is kept and what is shown, exactly -----

  /**
   * The same generation and player keep the assembler and the snapshot on show; another starts over.
   * Either way exactly the chunks newer than the projection keep waiting.
   */
  lemma RebindExactly(c: Client, route: RouteState, id: u64)
    ensures var (d, same) := (Rebind(c, route, id), c.generation == Some(route.actorGeneration) && c.localId == Some(id));
            && d.generation == Some(route.actorGeneration) && d.localId == Some(id) && d.version == Some(route.stateVersion)
            && (same ==> d.assembler == c.assembler && d.latest == c.latest)
            && (!same ==> d.assembler == N.Assembler(0, map[]) && d.latest == None)
            && (forall k :: k in d.buffered <==> k in c.buffered && k.version > route.stateVersion)
            && (forall k :: k in d.buffered ==> d.buffered[k] == c.buffered[k])
  {
  }

  /** Binding feeds the waiting chunks of the bound version, all of them and no others, and keeps the newer ones waiting. */
  lemma BindExactly(c: Client, route: RouteState)
    requires Keyed(c.buffered) && LocalEntityId(route).Some?
    ensures var (rebound, ready) := (Rebind(c, route, LocalEntityId(route).value), Sorted(AtVersion(c.buffered, route.stateVersion)));
            && BindRoute(c, Some(route)) == Deliver(rebound, ready)
            && BindRoute(c, Some(route)).client.buffered == rebound.buffered
            && (forall chunk :: chunk in ready <==> Holds(c.buffered, chunk) && chunk.stateVersion == route.stateVersion)
  {
    var waiting := AtVersion(c.buffered, route.stateVersion);
    SortedHolds(waiting);
    DeliverKeeps(Rebind(c, route, LocalEntityId(route).value), Sorted(waiting));
  }

  /** The chunk in the buffer that makes way when all places are taken: the first in key order. */
  predicate MakesWay(b: Buffer, k: Key) {
    |b| == 128 && forall other :: other in b ==> k.Le(other)
  }

  lemma InsertExactly(b: Buffer, chunk: Chunk)
    requires |b| <= MAX_BUFFERED_CHUNKS
    ensures var after := Insert(b, chunk);
            && KeyOf(chunk) in after && after[KeyOf(chunk)] == chunk
            && (forall k :: k in after <==> k == KeyOf(chunk) || (k in b && !MakesWay(b, k)))
            && (forall k :: k in after && k != KeyOf(chunk) ==> after[k] == b[k])
  {
    if |b| == MAX_BUFFERED_CHUNKS {
      var first := First(b.Keys);
      forall k | k in b ensures MakesWay(b, k) <==> k == first {
        assert first.Le(k);
      }
    }
  }

  /** A malformed chunk is refused, an older one ignored, one of the bound version assembled, a newer or unbound one kept. */
  lemma IngestExactly(c: Client, chunk: Chunk)
    ensures var step := Ingest(c, chunk);
            if !chunk.Validate() then step.client == c && !step.ok
            else if c.version.None? || chunk.stateVersion > c.version.value then
              step.ok && step.client == c.(buffered := step.client.buffered) && step.client.buffered == Insert(c.buffered, chunk)
            else if chunk.stateVersion < c.version.value then step.client == c && step.ok
            else step == ApplyBound(c, chunk)
  {
  }

  /**
   * A chunk of the bound version goes to the assembler; a snapshot it completes goes on show exactly when
   * its only player is the expected one, and fails otherwise, as a chunk the assembler refuses does.
   */
  lemma ShownExactly(c: Client, chunk: Chunk)
    requires c.version == Some(chunk.stateVersion)
    ensures var (step, pushed) := (ApplyBound(c, chunk), N.Push(c.assembler, chunk));
            && step.client == c.(assembler := pushed.assembler, latest := step.client.latest)
            && (pushed.reply.Quiet? ==> step.ok && step.client.latest == c.latest)
            && (pushed.reply.Refused? ==> !step.ok && step.client.latest == c.latest)
            && (pushed.reply.Complete? ==>
                  var own := && c.localId.Some?
                             && (exists e :: e in pushed.reply.snapshot.entities && e.kind == Player && e.id == c.localId.value)
                             && forall e :: e in pushed.reply.snapshot.entities && e.kind == Player ==> e.id == c.localId.value;
                  && (step.ok <==> own)
                  && step.client.latest == if own then Some(pushed.reply.snapshot) else c.latest)
  {
    if N.Push(c.assembler, chunk).reply.Complete? {
      N.CompletionMatchesChunk(c.assembler, chunk);
      if c.localId.Some? {
        OnlyPlayerExactly(N.Push(c.assembler, chunk).reply.snapshot.entities, c.localId.value);
      }
    }
  }

  /** Among distinct identities, the one player is the expected one exactly when a player with that identity and no other is there. */
  lemma {:induction false} OnlyPlayerExactly(entities: seq<Entity>, id: u64)
    requires DistinctIds(entities)
    ensures OnlyPlayerIs(entities, id)
            <==> (exists e :: e in entities && e.kind == Player && e.id == id)
                 && forall e :: e in entities && e.kind == Player ==> e.id == id
    ensures Players(entities) == [] <==> forall e :: e in entities ==> e.kind != Player
  {
    if entities != [] {
      var (first, rest) := (entities[0], entities[1..]);
      OnlyPlayerExactly(rest, id);
      assert entities == [first] + rest;
      if first.kind == Player && first.id == id {
        forall e | e in rest && e.kind == Player ensures e.id != id {
          var k :| 0 <= k < |rest| && rest[k] == e;
          assert entities[k + 1] == e;
        }
      }
    }
  }

  /** A Hall player carries the first eight bytes of the character identity, or one when they are all zero. */
  lemma HallIdExactly(character: Id, high: nat, low: u64)
    requires character == high * 0x1_0000_0000_0000_0000 + low
    ensures HallPlayerEntityId(character) == if low == 0 then 1 else low
  {
    assert character % 0x1_0000_0000_0000_0000 == low;
  }

  // ----- runs driven by one route model -----

  /** The route model of one character and the snapshot client it drives. */
  datatype Session = Session(route: R.Route, client: Client)

  /** A call of the route model, a fatal transport error, or the end of a poll with the datagrams it drained. */
  datatype Event = RouteEvent(call: R.Event) | TransportFails | PollEnds(queue: seq<Chunk>)

  function Poll(s: Session, queue: seq<Chunk>): Session {
    var bound := BindRoute(s.client, s.route.state);
    s.(client := if bound.ok then IngestQueue(bound.client, queue).client else bound.client)
  }

  /** A handshake and a lost link also reset the snapshot client; a fatal transport error does only that. */
  function Apply(s: Session, e: Event): Session {
    match e
    case RouteEvent(call) =>
      Session(R.Apply(s.route, call).model, if call.HelloCall? || call.LinkLostCall? then EMPTY else s.client)
    case TransportFails => s.(client := EMPTY)
    case PollEnds(queue) => Poll(s, queue)
  }

  function After(s: Session, run: seq<Event>): Session {
    if run == [] then s else Apply(After(s, run[..|run| - 1]), run[|run| - 1])
  }

  /** The route has advanced at least as far as the snapshot client's binding. */
  predicate Led(s: Session) {
    && RR.Authentic(s.route)
    && (s.client.version.Some? ==>
          s.client.generation.Some?
          && RR.Mark(s.client.generation.value, s.client.version.value).Le(RR.MarkOf(s.route)))
  }

  lemma PollKeeps(s: Session, queue: seq<Chunk>)
    requires Tidy(s.client) && Current(s.client) && Led(s)
    ensures var t := Poll(s, queue); Tidy(t.client) && Current(t.client) && Led(t)
  {
    var bound := BindRoute(s.client, s.route.state);
    BindKeeps(s.client, s.route.state);
    BindingFollows(s.client, s.route.state);
    IngestQueueKeeps(bound.client, queue);
  }

  /** A binding either moves to the given projection, or is given up, or stays when no identity exists. */
  lemma BindingFollows(c: Client, route: Option<RouteState>)
    ensures var step := BindRoute(c, route);
            match route
            case None => step == Step(EMPTY, true)
            case Some(state) =>
              if LocalEntityId(state).None? then step == Step(c, false)
              else && step.client.generation == Some(state.actorGeneration)
                   && step.client.version == Some(state.stateVersion)
                   && step.client.localId == LocalEntityId(state)
  {
    if route.Some? && LocalEntityId(route.value).Some? {
      DeliverKeeps(Rebind(c, route.value, LocalEntityId(route.value).value), Sorted(AtVersion(c.buffered, route.value.stateVersion)));
    }
  }

  lemma RouteEventKeeps(s: Session, call: R.Event)
    requires Tidy(s.client) && Current(s.client) && Led(s)
    ensures var t := Apply(s, RouteEvent(call)); Tidy(t.client) && Current(t.client) && Led(t)
  {
    RR.StepAuthentic(s.route, call);
    if !call.HelloCall? {
      RR.StepMonotone(s.route, call);
    }
  }

  /**
   * In every run from an empty client: the buffer never exceeds its bound and holds only versions
   * newer than the bound one, and the latest snapshot is never newer than the bound version and
   * holds exactly one player, the one the binding expects.
   */
  lemma {:induction false} SnapshotsFollowTheRoute(route: R.Route, run: seq<Event>)
    requires RR.Authentic(route)
    ensures var s := After(Session(route, EMPTY), run); Tidy(s.client) && Current(s.client) && Led(s)
  {
    if run != [] {
      var s := After(Session(route, EMPTY), run[..|run| - 1]);
      SnapshotsFollowTheRoute(route, run[..|run| - 1]);
      match run[|run| - 1] {
        case RouteEvent(call) => RouteEventKeeps(s, call);
        case TransportFails =>
        case PollEnds(queue) => PollKeeps(s, queue);
      }
    }
  }

  /** After a poll that binds, the snapshot on show carries the one player of the route's projection. */
  lemma PolledSnapshotIsTheRoutes(s: Session, queue: seq<Chunk>)
    requires Tidy(s.client) && s.route.state.Some? && BindRoute(s.client, s.route.state).ok
    ensures var (c, state) := (Poll(s, queue).client, s.route.state.value);
            && c.version == Some(state.stateVersion)
            && c.generation == Some(state.actorGeneration)
            && (c.latest.Some? ==> LocalEntityId(state).Some? && OnlyPlayerIs(c.latest.value.entities, LocalEntityId(state).value))
  {
    BindingFollows(s.client, s.route.state);
    BindKeeps(s.client, s.route.state);
    IngestQueueKeeps(BindRoute(s.client, s.route.state).client, queue);
  }

  /**
   * One route model per run is a real premise. Dungeon player identities come from the generation
   * alone, so binding straight to another character's projection of the same generation keeps the
   * old snapshot, whose version may be newer than the one now bound.
   */
  lemma OtherCharacterKeepsSnapshot(c: Client, other: RouteState)
    requires Tidy(c) && c.latest.Some? && !other.scene.LanternHalls?
    requires c.generation == Some(other.actorGeneration) && c.localId == PrivatePlayerEntityId(other.actorGeneration)
    requires forall k :: k in c.buffered ==> k.version != other.stateVersion
    ensures BindRoute(c, Some(other)).ok && BindRoute(c, Some(other)).client.latest == c.latest
    ensures Current(BindRoute(c, Some(other)).client) <==> c.latest.value.stateVersion <= other.stateVersion
  {
    assert AtVersion(c.buffered, other.stateVersion) == map[];
  }
}
