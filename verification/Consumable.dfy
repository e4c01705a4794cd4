/**
 * The belt-consumable client: it never predicts custody, binds each intent to the latest projection
 * and keeps the exact mutation frame until a matching definitive result or a route change.
 */
module Consumable {
  import opened Basics
  import opened RouteProtocol

  const CORE_CONSUMABLE_SCHEMA_VERSION: u16 := 1
  const CORE_CONSUMABLE_BELT_CAPACITY: u8 := 6

  datatype Slot = BeltOne | BeltTwo

  datatype Payload = Payload(
    characterId: Id,
    actorGeneration: u64,
    lineage: Id,
    contentRevision: Hash,
    expectedInventoryVersion: u64,
    slot: Slot)
  {
    predicate Validate() {
      characterId != 0 && lineage != 0 && actorGeneration != 0 && expectedInventoryVersion != 0
    }

    function CanonicalHash(): Digest { Digest(this) }
  }

  /** An ideal payload hash: injective, and never the all-zero digest. */
  datatype Digest = Digest(material: Payload)

  datatype Frame = Frame(schemaVersion: u16, mutationId: Id, payloadHash: Digest, payload: Payload) {
    predicate Validate() {
      && schemaVersion == CORE_CONSUMABLE_SCHEMA_VERSION
      && mutationId != 0
      && payload.Validate()
      && payloadHash == payload.CanonicalHash()
    }
  }

  datatype State = State(
    schemaVersion: u16,
    characterId: Id,
    actorGeneration: u64,
    lineage: Id,
    contentRevision: Hash,
    inventoryVersion: u64,
    beltOne: u8,
    beltTwo: u8)
  {
    predicate Validate() {
      && schemaVersion == CORE_CONSUMABLE_SCHEMA_VERSION
      && characterId != 0 && lineage != 0
      && actorGeneration != 0 && inventoryVersion != 0
      && beltOne <= CORE_CONSUMABLE_BELT_CAPACITY && beltTwo <= CORE_CONSUMABLE_BELT_CAPACITY
    }
  }

  datatype Code =
    | Accepted | EmptySlot | FullHealth | SharedCooldown | InactiveSlot | RecallBlocked | TerminalRejected
    | AuthorityMismatch | ContentRejected | InventoryVersionMismatch | IdempotencyConflict | ServiceUnavailable

  datatype UseResult = UseResult(schemaVersion: u16, mutationId: Id, code: Code, consumedItem: Option<Id>, state: Option<State>) {
    predicate Validate() {
      && schemaVersion == CORE_CONSUMABLE_SCHEMA_VERSION
      && mutationId != 0
      && consumedItem != Some(0)
      && (state.Some? ==> state.value.Validate())
      && (code.Accepted? <==> consumedItem.Some?)
      && (code.Accepted? <==> state.Some?)
    }
  }

  datatype Error = AuthorityUnavailable | MutationPending | InvalidAuthority | UnexpectedResult

  datatype Reply = Done | Sent(frame: Frame) | Verdict(accepted: bool, code: Code) | Refused(error: Error)

  datatype Step = Step(model: Model, reply: Reply)

  datatype Model = Model(revision: Hash, authority: Option<State>, pending: Option<Frame>, lastResult: Option<Code>) {
    /** The projection is of this character, actor, lineage and content. */
    predicate Fits(state: State, character: Id, route: RouteState) {
      && state.characterId == character
      && state.actorGeneration == route.actorGeneration
      && Some(state.lineage) == route.lineage
      && state.contentRevision == revision
    }

    function Observe(state: State, character: Id, route: RouteState): Step {
      if !state.Validate() || !Fits(state, character, route) then Step(this, Refused(InvalidAuthority))
      else Step(this.(authority := Some(state)), Done)
    }

    function Begin(slot: Slot, mutationId: Id, character: Id, route: RouteState): Step {
      if pending.Some? then Step(this, Refused(MutationPending))
      else if authority.None? then Step(this, Refused(AuthorityUnavailable))
      else if !Fits(authority.value, character, route) then Step(this, Refused(InvalidAuthority))
      else if route.lineage.None? then Step(this, Refused(AuthorityUnavailable))
      else
        var payload := Payload(character, route.actorGeneration, route.lineage.value, revision,
                               authority.value.inventoryVersion, slot);
        var frame := Frame(CORE_CONSUMABLE_SCHEMA_VERSION, mutationId, payload.CanonicalHash(), payload);
        if frame.Validate() then Step(this.(pending := Some(frame)), Sent(frame)) else Step(this, Refused(InvalidAuthority))
    }

    function ApplyResult(result: UseResult, character: Id, route: RouteState): Step {
      if !result.Validate() then Step(this, Refused(InvalidAuthority))
      else if pending.None? || result.mutationId != pending.value.mutationId then Step(this, Refused(UnexpectedResult))
      else if result.state.Some? && !Fits(result.state.value, character, route) then Step(this, Refused(InvalidAuthority))
      else
        var noted := this.(lastResult := Some(result.code));
        if result.code.ServiceUnavailable? then Step(noted, Verdict(false, result.code))
        else Step(noted.(pending := None, authority := if result.state.Some? then result.state else authority),
                  Verdict(result.code.Accepted?, result.code))
    }

    function TransportLost(): Step { Step(this.(authority := None), Done) }

    function CancelForNewRoute(): Step { Step(this.(authority := None, pending := None), Done) }

    function RetainForRoute(character: Option<Id>, route: Option<RouteState>): Step {
      if character.None? || route.None? then CancelForNewRoute()
      else
        var foreign := pending.Some? && !SameActor(pending.value, character.value, route.value);
        var stale := authority.Some? && !Fits(authority.value, character.value, route.value);
        Step(this.(pending := if foreign then None else pending, authority := if stale then None else authority), Done)
    }
  }

  /** The frame was sent for this character, actor generation and lineage. */
  predicate SameActor(frame: Frame, character: Id, route: RouteState) {
    && frame.payload.characterId == character
    && frame.payload.actorGeneration == route.actorGeneration
    && Some(frame.payload.lineage) == route.lineage
  }

  function New(revision: Hash): Model { Model(revision, None, None, None) }

  class CoreConsumableClientModel {
    const revision: Hash
    var authority: Option<State>
    var pending: Option<Frame>
    var lastResult: Option<Code>

    function View(): Model
      reads this
    {
      Model(revision, authority, pending, lastResult)
    }

    constructor (revision: Hash)
      ensures View() == New(revision)
    {
      this.revision := revision;
      authority, pending, lastResult := None, None, None;
    }

    method ObserveState(state: State, character: Id, route: RouteState) returns (reply: Reply)
      modifies this`authority
      ensures Step(View(), reply) == old(View()).Observe(state, character, route)
    {
      if !state.Validate() { return Refused(InvalidAuthority); }
      if !View().Fits(state, character, route) { return Refused(InvalidAuthority); }
      authority := Some(state);
      return Done;
    }

    method BeginUse(slot: Slot, mutationId: Id, character: Id, route: RouteState) returns (reply: Reply)
      modifies this`pending
      ensures Step(View(), reply) == old(View()).Begin(slot, mutationId, character, route)
    {
      if pending.Some? { return Refused(MutationPending); }
      if authority.None? { return Refused(AuthorityUnavailable); }
      if !View().Fits(authority.value, character, route) { return Refused(InvalidAuthority); }
      if route.lineage.None? { return Refused(AuthorityUnavailable); }
      var payload := Payload(character, route.actorGeneration, route.lineage.value, revision,
                             authority.value.inventoryVersion, slot);
      var frame := Frame(CORE_CONSUMABLE_SCHEMA_VERSION, mutationId, payload.CanonicalHash(), payload);
      if !frame.Validate() { return Refused(InvalidAuthority); }
      pending := Some(frame);
      return Sent(frame);
    }

    method ResultArrived(result: UseResult, character: Id, route: RouteState) returns (reply: Reply)
      modifies this
      ensures Step(View(), reply) == old(View()).ApplyResult(result, character, route)
      ensures reply == Verdict(true, Accepted) ==> authority == result.state && authority.Some? && pending.None?
      ensures reply.Refused? ==> authority == old(authority) && pending == old(pending)
    {
      if !result.Validate() { return Refused(InvalidAuthority); }
      if pending.None? { return Refused(UnexpectedResult); }
      if result.mutationId != pending.value.mutationId { return Refused(UnexpectedResult); }
      if result.state.Some? && !View().Fits(result.state.value, character, route) { return Refused(InvalidAuthority); }
      lastResult := Some(result.code);
      if result.code.ServiceUnavailable? { return Verdict(false, result.code); }
      pending := None;
      if result.state.Some? {
        authority := result.state;
      }
      return Verdict(result.code.Accepted?, result.code);
    }

    method LinkLost()
      modifies this`authority
      ensures View() == old(View()).TransportLost().model
    {
      authority := None;
    }

    /** The frame to send again, byte for byte. */
    method ExactRetry() returns (frame: Option<Frame>)
      ensures frame == View().pending
    {
      return pending;
    }

    method Cancel()
      modifies this`authority, this`pending
      ensures View() == old(View()).CancelForNewRoute().model
    {
      authority := None;
      pending := None;
    }

    method Retain(character: Option<Id>, route: Option<RouteState>)
      modifies this`authority, this`pending
      ensures View() == old(View()).RetainForRoute(character, route).model
    {
      if character.None? || route.None? {
        Cancel();
        return;
      }
      if pending.Some? && !SameActor(pending.value, character.value, route.value) {
        pending := None;
      }
      if authority.Some? && !View().Fits(authority.value, character.value, route.value) {
        authority := None;
      }
    }
  }
}
