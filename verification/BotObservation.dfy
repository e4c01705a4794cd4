/** What the bot reads off a complete snapshot, and how it turns an offset into a wire direction. */
module BotObservation {
  import opened Basics
  import opened SnapshotWire
  import opened BotAssembler
  import opened AssemblyRuns

  datatype Observation = Observation(
    serverTick: u64,
    stateVersion: u64,
    player: Entity,
    nearestEnemy: Option<Entity>,
    nearestPickup: Option<Entity>)

  /** Two's-complement wrap-around of a release build, for 32 and 64 bits. */
  function WrapI32(x: int): i32 {
    (x + 0x8000_0000) % 0x1_0000_0000 - 0x8000_0000
  }

  function WrapI64(x: int): int {
    (x + 0x8000_0000_0000_0000) % 0x1_0000_0000_0000_0000 - 0x8000_0000_0000_0000
  }

  function Square(x: int): int { x * x }

  function SquaredDistance(e: Entity, player: Entity): int {
    WrapI64(Square(WrapI32(e.x - player.x)) + Square(WrapI32(e.y - player.y)))
  }

  /** Order of (squared distance, identity) keys. */
  predicate Nearer(player: Entity, a: Entity, b: Entity) {
    SquaredDistance(a, player) < SquaredDistance(b, player)
    || (SquaredDistance(a, player) == SquaredDistance(b, player) && a.id < b.id)
  }

  predicate Hostile(e: Entity) {
    (e.kind.Enemy? || e.kind.Boss?) && e.Alive() && e.currentHealth > 0
  }

  predicate Claimable(e: Entity) {
    e.kind.PersonalPickup? && e.Alive() && e.Eligible() && !e.Collected()
  }

  /** The first included entity with the least key. */
  function Nearest(entities: seq<Entity>, player: Entity, wanted: Entity -> bool): Option<Entity> {
    if entities == [] then None
    else
      var (best, last) := (Nearest(entities[..|entities| - 1], player, wanted), entities[|entities| - 1]);
      if wanted(last) && (best.None? || Nearer(player, last, best.value)) then Some(last) else best
  }

  function FindPlayer(entities: seq<Entity>, id: u64): Option<Entity> {
    if entities == [] then None
    else if entities[0].kind.Player? && entities[0].id == id then Some(entities[0])
    else FindPlayer(entities[1..], id)
  }

  /** No observation means that the controlled player is not in the snapshot. */
  function Observe(snapshot: Snapshot, controlled: u64): Option<Observation> {
    match FindPlayer(snapshot.entities, controlled)
    case None => None
    case Some(player) =>
      Some(Observation(snapshot.serverTick, snapshot.stateVersion, player,
                       Nearest(snapshot.entities, player, Hostile),
                       Nearest(snapshot.entities, player, Claimable)))
  }

  // ----- the observation does not depend on packaging -----

  lemma {:induction false} NearestIsLeast(entities: seq<Entity>, player: Entity, wanted: Entity -> bool)
    ensures var best := Nearest(entities, player, wanted);
            && (best.None? <==> forall e :: e in entities ==> !wanted(e))
            && (best.Some? ==>
                  && best.value in entities && wanted(best.value)
                  && forall e :: e in entities && wanted(e) ==> !Nearer(player, e, best.value))
  {
    if entities != [] {
      var n := |entities| - 1;
      NearestIsLeast(entities[..n], player, wanted);
      assert entities == entities[..n] + [entities[n]];
    }
  }

  ghost predicate SameEntities(a: seq<Entity>, b: seq<Entity>) {
    forall e :: e in a <==> e in b
  }

  lemma NearestIgnoresOrder(a: seq<Entity>, b: seq<Entity>, player: Entity, wanted: Entity -> bool)
    requires SameEntities(a, b) && DistinctIds(a)
    ensures Nearest(a, player, wanted) == Nearest(b, player, wanted)
  {
    NearestIsLeast(a, player, wanted);
    NearestIsLeast(b, player, wanted);
    var (first, second) := (Nearest(a, player, wanted), Nearest(b, player, wanted));
    if first.Some? {
      assert second.Some?;
      assert !Nearer(player, second.value, first.value) && !Nearer(player, first.value, second.value);
      assert first.value.id == second.value.id;
    }
  }

  lemma {:induction false} FindPlayerFinds(entities: seq<Entity>, id: u64)
    ensures var found := FindPlayer(entities, id);
            && (found.None? <==> forall e :: e in entities ==> !(e.kind.Player? && e.id == id))
            && (found.Some? ==> found.value in entities && found.value.kind.Player? && found.value.id == id)
  {
    if entities != [] {
      FindPlayerFinds(entities[1..], id);
      assert entities == [entities[0]] + entities[1..];
    }
  }

  lemma ObserveIgnoresOrder(first: Snapshot, second: Snapshot, controlled: u64)
    requires first.serverTick == second.serverTick && first.stateVersion == second.stateVersion
    requires SameEntities(first.entities, second.entities) && DistinctIds(first.entities)
    ensures Observe(first, controlled) == Observe(second, controlled)
  {
    FindPlayerFinds(first.entities, controlled);
    FindPlayerFinds(second.entities, controlled);
    var player := FindPlayer(first.entities, controlled);
    if player.Some? {
      assert player == FindPlayer(second.entities, controlled);
      NearestIgnoresOrder(first.entities, second.entities, player.value, Hostile);
      NearestIgnoresOrder(first.entities, second.entities, player.value, Claimable);
    }
  }

  /** No entity with the property comes before the chosen one by squared distance, then identity. */
  predicate FirstOf(chosen: Entity, e: Entity, player: Entity) {
    || SquaredDistance(chosen, player) < SquaredDistance(e, player)
    || (SquaredDistance(chosen, player) == SquaredDistance(e, player) && chosen.id <= e.id)
  }

  /** A living enemy or boss with health left: state flag 1 is set. */
  predicate LivingEnemy(e: Entity) {
    (e.kind == Enemy || e.kind == Boss) && e.stateFlags % 2 == 1 && e.currentHealth != 0
  }

  /** A personal pickup that is alive and eligible and not collected: flags 1 and 2 are set and 4 is not. */
  predicate OpenPickup(e: Entity) {
    e.kind == PersonalPickup && e.stateFlags % 8 == 3
  }

  /** The scan finds nothing exactly when nothing has the property, and otherwise the first that has it. */
  ghost predicate FirstWith(found: Option<Entity>, entities: seq<Entity>, player: Entity, wanted: Entity -> bool) {
    && (found.Some? <==> exists e :: e in entities && wanted(e))
    && (found.Some? ==>
          && found.value in entities && wanted(found.value)
          && forall e :: e in entities && wanted(e) ==> FirstOf(found.value, e, player))
  }

  lemma NearestEnemyMeaning(entities: seq<Entity>, player: Entity)
    ensures FirstWith(Nearest(entities, player, Hostile), entities, player, LivingEnemy)
  {
    NearestIsLeast(entities, player, Hostile);
  }

  /** The three low state flags, read together and one by one. */
  lemma LowFlags(flags: nat)
    ensures flags % 8 == 3 <==> flags % 2 == 1 && flags / 2 % 2 == 1 && flags / 4 % 2 == 0
  {
    var (high, low) := (flags / 8, flags % 8);
    assert flags == 8 * high + low;
    assert flags / 2 == 4 * high + low / 2 && flags / 4 == 2 * high + low / 4;
  }

  lemma ClaimableIsOpen(e: Entity)
    ensures Claimable(e) <==> OpenPickup(e)
  {
    LowFlags(e.stateFlags);
  }

  lemma NearestPickupMeaning(entities: seq<Entity>, player: Entity)
    ensures FirstWith(Nearest(entities, player, Claimable), entities, player, OpenPickup)
  {
    NearestIsLeast(entities, player, Claimable);
    forall e: Entity ensures Claimable(e) <==> OpenPickup(e) {
      ClaimableIsOpen(e);
    }
  }

  /**
   * An observation exists exactly when the controlled player is in the snapshot. It shows that player,
   * an enemy exactly when a living one with health is there, and a pickup exactly when an open one is;
   * each is the first of its kind by distance and identity.
   */
  lemma ObservationMeaning(snapshot: Snapshot, controlled: u64)
    ensures var o := Observe(snapshot, controlled);
            && (o.Some? <==> exists e :: e in snapshot.entities && e.kind == Player && e.id == controlled)
            && (o.Some? ==>
                  && o.value.serverTick == snapshot.serverTick && o.value.stateVersion == snapshot.stateVersion
                  && o.value.player in snapshot.entities && o.value.player.kind == Player && o.value.player.id == controlled
                  && FirstWith(o.value.nearestEnemy, snapshot.entities, o.value.player, LivingEnemy)
                  && FirstWith(o.value.nearestPickup, snapshot.entities, o.value.player, OpenPickup))
  {
    FindPlayerFinds(snapshot.entities, controlled);
    var player := FindPlayer(snapshot.entities, controlled);
    if player.Some? {
      NearestEnemyMeaning(snapshot.entities, player.value);
      NearestPickupMeaning(snapshot.entities, player.value);
    }
  }

  /**
   * Two servers' ways of cutting one entity set into chunks, each delivered in its own order with its
   * own repeats and stale traffic, give the bot one and the same observation.
   */
  lemma PackagingIsInvisible(
      a: Assembler, family: seq<Chunk>, run: seq<Chunk>, i: nat,
      b: Assembler, other: seq<Chunk>, otherRun: seq<Chunk>, j: nat, controlled: u64)
    requires Family(family) && Family(other) && DistinctIds(Concat(family)) && DistinctIds(Concat(other))
    requires family[0].serverTick == other[0].serverTick && family[0].stateVersion == other[0].stateVersion
    requires SameEntities(Concat(family), Concat(other))
    requires Sound(a) && Untouched(a, family[0].sequence) && Sound(b) && Untouched(b, other[0].sequence)
    requires forall c :: c in run ==> Traffic(family, c)
    requires forall c :: c in otherRun ==> Traffic(other, c)
    requires i < |run| && j < |otherRun|
    requires ReplyAt(a, run, i).Complete? && ReplyAt(a, run, i).snapshot.sequence == family[0].sequence
    requires ReplyAt(b, otherRun, j).Complete? && ReplyAt(b, otherRun, j).snapshot.sequence == other[0].sequence
    ensures Observe(ReplyAt(a, run, i).snapshot, controlled) == Observe(ReplyAt(b, otherRun, j).snapshot, controlled)
  {
    EmittedExactlyOnCompletion(a, family, run, i);
    EmittedExactlyOnCompletion(b, other, otherRun, j);
    ObserveIgnoresOrder(Expected(family), Expected(other), controlled);
  }

  // ----- when the wrapped distance is the true one -----

  lemma SquareMonotone(x: int, y: int)
    requires (if x < 0 then -x else x) < (if y < 0 then -y else y)
    ensures Square(x) < Square(y)
  {
    var (p, q) := (if x < 0 then -x else x, if y < 0 then -y else y);
    assert Square(x) == p * p && Square(y) == q * q;
    assert p * p <= p * q < q * q;
  }

  lemma WrapShrinks(x: int)
    ensures Square(WrapI32(x)) <= Square(x)
    ensures Square(WrapI32(x)) == Square(x) <==> -0x8000_0000 <= x <= 0x7FFF_FFFF || x == 0x8000_0000
    ensures 0 <= Square(WrapI32(x)) <= 0x4000_0000_0000_0000
    ensures Square(WrapI32(x)) == 0x4000_0000_0000_0000 <==> WrapI32(x) == -0x8000_0000
  {
    var w := WrapI32(x);
    if -0x8000_0000 <= x <= 0x7FFF_FFFF {
      assert w == x;
    } else if x != 0x8000_0000 {
      SquareMonotone(w, x);
    }
    if w != -0x8000_0000 {
      SquareMonotone(w, -0x8000_0000);
    }
  }

  /**
   * Coordinates are not bounded on the wire. The key is the true squared distance exactly when both
   * differences survive 32-bit subtraction up to sign and they are not both at the extreme.
   */
  lemma DistanceExact(e: Entity, player: Entity)
    ensures var (dx, dy) := (e.x - player.x, e.y - player.y);
            SquaredDistance(e, player) == Square(dx) + Square(dy) <==>
              && -0x8000_0000 <= dx <= 0x8000_0000 && -0x8000_0000 <= dy <= 0x8000_0000
              && !((dx == -0x8000_0000 || dx == 0x8000_0000) && (dy == -0x8000_0000 || dy == 0x8000_0000))
  {
    var (dx, dy) := (e.x - player.x, e.y - player.y);
    WrapShrinks(dx);
    WrapShrinks(dy);
  }

  // ----- fixed-point directions -----

  const FIXED_SCALE := 1000

  function Magnitude(x: int): nat { if x < 0 then -x else x }

  /** Integer division that truncates toward zero. */
  function TruncDiv(a: int, b: int): int
    requires b > 0
  {
    if a >= 0 then a / b else -(-a / b)
  }

  function FixedDirection(x: i32, y: i32, fallback: (int, int)): (int, int) {
    var maximum := Max(Magnitude(x), Magnitude(y));
    if maximum == 0 then fallback
    else (TruncDiv(x * FIXED_SCALE, maximum), TruncDiv(y * FIXED_SCALE, maximum))
  }

  lemma MultiplyMonotone(a: nat, b: nat, c: nat)
    requires a <= b
    ensures a * c <= b * c
  {
  }

  lemma DivisionBounds(a: nat, b: nat)
    requires b > 0
    ensures a / b * b <= a < (a / b + 1) * b
  {
  }

  lemma Quotient(m: nat, maximum: nat, q: nat)
    requires 0 < maximum && m <= maximum && q == m * FIXED_SCALE / maximum
    ensures q <= FIXED_SCALE && (m == maximum ==> q == FIXED_SCALE)
    ensures q * maximum <= m * FIXED_SCALE < (q + 1) * maximum
  {
    DivisionBounds(m * FIXED_SCALE, maximum);
    if q > FIXED_SCALE {
      MultiplyMonotone(FIXED_SCALE + 1, q, maximum);
    }
    if m == maximum && q + 1 <= FIXED_SCALE {
      MultiplyMonotone(q + 1, FIXED_SCALE, maximum);
    }
  }

  lemma ScaledComponent(x: int, maximum: nat)
    requires maximum > 0 && Magnitude(x) <= maximum
    ensures var r := TruncDiv(x * FIXED_SCALE, maximum);
            && Magnitude(r) <= FIXED_SCALE
            && (Magnitude(x) == maximum ==> Magnitude(r) == FIXED_SCALE)
            && (x >= 0 ==> r >= 0) && (x <= 0 ==> r <= 0)
            && Magnitude(r) * maximum <= Magnitude(x) * FIXED_SCALE < (Magnitude(r) + 1) * maximum
  {
    var q := Magnitude(x) * FIXED_SCALE / maximum;
    Quotient(Magnitude(x), maximum, q);
    assert TruncDiv(x * FIXED_SCALE, maximum) == if x >= 0 then q else -q;
    assert Magnitude(TruncDiv(x * FIXED_SCALE, maximum)) == q;
  }

  /**
   * Away from the origin the direction has max-norm exactly 1000, never opposes the offset's signs,
   * is truncated toward zero by less than one unit and fits the wire's 16-bit components.
   */
  lemma FixedDirectionIsUnit(x: i32, y: i32, fallback: (int, int))
    requires x != 0 || y != 0
    ensures var (rx, ry) := FixedDirection(x, y, fallback);
            var maximum := Max(Magnitude(x), Magnitude(y));
            && Max(Magnitude(rx), Magnitude(ry)) == FIXED_SCALE
            && (x >= 0 ==> rx >= 0) && (x <= 0 ==> rx <= 0) && (y >= 0 ==> ry >= 0) && (y <= 0 ==> ry <= 0)
            && Magnitude(rx) * maximum <= Magnitude(x) * FIXED_SCALE < (Magnitude(rx) + 1) * maximum
            && Magnitude(ry) * maximum <= Magnitude(y) * FIXED_SCALE < (Magnitude(ry) + 1) * maximum
            && -0x8000 <= rx <= 0x7FFF && -0x8000 <= ry <= 0x7FFF
  {
    var maximum := Max(Magnitude(x), Magnitude(y));
    ScaledComponent(x, maximum);
    ScaledComponent(y, maximum);
  }
}
