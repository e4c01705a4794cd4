/** Theorems about every run of the private-route authority model. */
module RouteRuns {
  import opened Basics
  import opened RouteProtocol
  import opened RouteModel

  // ----- control safety -----

  /** All three streams are present and describe one and the same authority that admits input. */
  predicate Agreed(r: Route) {
    && r.location.Some? && r.state.Some? && r.readiness.Some?
    && var (location, state, readiness) := (r.location.value, r.state.value, r.readiness.value);
    && location.characterId == state.characterId == r.characterId
    && location.characterVersion == state.characterVersion == readiness.characterVersion
    && LocationMatchesState(location, state)
    && readiness.scene == state.scene && readiness.room == state.room && readiness.lineage == state.lineage
    && readiness.locationId == state.scene.LocationId()
    && readiness.actorGeneration == state.actorGeneration && readiness.stateVersion == state.stateVersion
    && state.contentRevision == r.routeRevision && readiness.worldRevision == r.worldRevision
    && state.readiness.acceptsGameplayInput
  }

  /** Everything held is valid, belongs to this character and content, and outlives every retirement. */
  predicate Grounded(r: Route) {
    && (r.failure.Some? <==> r.phase.Fatal?)
    && (r.featureAuthorized ==> !r.phase.Disabled?)
    && (!r.featureAuthorized ==>
          (r.phase.Disabled? || r.phase.Fatal?) && r.location.None? && r.readiness.None?)
    && (r.state.Some? ==>
          && r.state.value.Validate()
          && r.state.value.characterId == r.characterId
          && r.state.value.contentRevision == r.routeRevision
          && r.state.value.actorGeneration > r.retiredFloor)
    && (r.location.Some? ==> r.location.value.Validate() && r.location.value.characterId == r.characterId)
    && (r.readiness.Some? ==> r.readiness.value.Validate() && r.readiness.value.worldRevision == r.worldRevision)
    && (r.readiness.Some? && r.state.Some? ==> ReadinessMatchesState(r.readiness.value, r.state.value))
  }

  /** What every reachable model satisfies: control is held exactly when the streams agree. */
  predicate Authentic(r: Route) {
    Grounded(r) && (r.phase.Controllable? <==> !r.phase.Fatal? && Agreed(r))
  }

  lemma FailAuthentic(r: Route, error: RouteError)
    requires Grounded(r)
    ensures Authentic(r.FailWith(error).model)
  {
  }

  lemma ReconcileAuthentic(r: Route)
    requires Grounded(r) && r.featureAuthorized
    ensures Authentic(r.Reconcile().model)
  {
  }

  lemma AcceptGrounded(r: Route, next: RouteState)
    requires Grounded(r)
    ensures Grounded(r.AcceptState(next).model)
    ensures r.AcceptState(next).reply.Fail? ==>
              r.AcceptState(next).model in {r, r.FailWith(r.AcceptState(next).reply.error).model}
  {
  }

  lemma LocationAuthentic(r: Route, snapshot: LocationSnapshot)
    requires Authentic(r)
    ensures Authentic(r.Location(snapshot).model)
  {
    if r.featureAuthorized && snapshot.Validate() && snapshot.characterId == r.characterId {
      ReconcileAuthentic(r.(location := Some(snapshot)));
    } else {
      FailAuthentic(r, InvalidLocationAuthority);
      FailAuthentic(r, ForeignCharacter);
    }
  }

  lemma ReliableAuthentic(r: Route, frame: ReliableFrame)
    requires Authentic(r)
    ensures Authentic(r.Reliable(frame).model)
  {
    FailAuthentic(r, InvalidProjection);
    FailAuthentic(r, StaleReliableSequence);
    if r.featureAuthorized && frame.Validate() && frame.event.RouteStateEvent? {
      if frame.sequence == r.lastReliableSequence {
        ReconcileAuthentic(r);
      } else if frame.sequence > r.lastReliableSequence {
        var accepted := r.AcceptState(frame.event.state);
        AcceptGrounded(r, frame.event.state);
        if accepted.reply.Fail? {
          FailAuthentic(r, accepted.reply.error);
        } else {
          ReconcileAuthentic(accepted.model.(lastReliableSequence := frame.sequence));
        }
      }
    }
  }

  lemma ReadinessAuthentic(r: Route, ready: SceneReadiness)
    requires Authentic(r)
    ensures Authentic(r.Readiness(ready).model)
  {
    FailAuthentic(r, ContentMismatch);
    if r.Readiness(ready) != r.RejectReadiness() && r.featureAuthorized && ready.worldRevision == r.worldRevision {
      ReconcileAuthentic(r.(readiness := Some(ready)));
    }
  }

  lemma StepAuthentic(r: Route, e: Event)
    requires Authentic(r)
    ensures Authentic(Apply(r, e).model)
  {
    match e {
      case HelloCall(hello) => FailAuthentic(r, InvalidServerHello);
      case LinkLostCall =>
      case TransferCall =>
      case TransitionCall(ready, current) => if current.Some? { LocationAuthentic(r, current.value); }
      case LocationCall(snapshot) => LocationAuthentic(r, snapshot);
      case ReliableCall(frame) => ReliableAuthentic(r, frame);
      case ReadinessCall(readiness) => ReadinessAuthentic(r, readiness);
      case RetireCall =>
    }
  }

  lemma {:induction false} RunAuthentic(r: Route, run: seq<Event>)
    requires Authentic(r)
    ensures Authentic(After(r, run))
  {
    if run != [] {
      RunAuthentic(r, run[..|run| - 1]);
      StepAuthentic(After(r, run[..|run| - 1]), run[|run| - 1]);
    }
  }

  /** The durable location names the place of the projection: its scene, and outside the Hall its lineage. */
  predicate SamePlace(location: CharacterLocation, state: RouteState) {
    match state.scene
    case LanternHalls => location.Safe? && location.locationId == HubLanternHalls01
    case CoreMicrorealm =>
      location.Danger? && location.locationId == WorldCoreMicrorealm01 && state.lineage == Some(location.lineage)
    case BellSepulcher =>
      location.Danger? && location.locationId == DungeonBellSepulcher && state.lineage == Some(location.lineage)
  }

  lemma PlacesMatchExactly(location: LocationSnapshot, state: RouteState)
    requires state.Validate()
    ensures LocationMatchesState(location, state) <==>
              location.characterId == state.characterId && SamePlace(location.location, state)
  {
  }

  /** In every run of a newly created model, gameplay control is legal exactly when everything agrees. */
  lemma ControlSafety(characterId: Id, worldRevision: Revision, routeRevision: Revision, run: seq<Event>)
    requires NewReply(characterId, routeRevision).Pass?
    ensures var r := After(Fresh(characterId, worldRevision, routeRevision), run);
            && (r.phase.Controllable? <==> !r.phase.Fatal? && Agreed(r))
            && (r.phase.Controllable? ==> r.featureAuthorized && r.state.value.Validate() && r.location.value.Validate())
            && (r.phase.Controllable? ==>
                  && SamePlace(r.location.value.location, r.state.value) && r.state.value.phase != RouteTerminalPending
                  && (r.location.value.location.Danger? ==>
                        r.location.value.location.lineage != 0 && r.location.value.location.entryRestorePointId != 0))
  {
    RunAuthentic(Fresh(characterId, worldRevision, routeRevision), run);
    var r := After(Fresh(characterId, worldRevision, routeRevision), run);
    if r.phase.Controllable? {
      PlacesMatchExactly(r.location.value, r.state.value);
    }
  }

  // ----- the fatal latch -----

  /** One call leaves the fatal phase exactly when it is a valid, version-compatible server hello. */
  lemma FatalLatch(r: Route, e: Event)
    requires r.phase.Fatal?
    ensures !Apply(r, e).model.phase.Fatal? <==> e.HelloCall? && e.hello.RouteCompatible()
    ensures Apply(r, e).model.phase.Fatal? && !e.LinkLostCall? ==> Apply(r, e).reply.Fail?
  {
    match e {
      case ReliableCall(frame) =>
        if r.featureAuthorized && frame.Validate() && frame.event.RouteStateEvent? {
          assert r.AcceptState(frame.event.state).model.phase.Fatal?;
        }
      case _ =>
    }
  }

  lemma {:induction false} FatalStaysLatched(r: Route, run: seq<Event>)
    requires r.phase.Fatal?
    requires forall i :: 0 <= i < |run| ==> !(run[i].HelloCall? && run[i].hello.RouteCompatible())
    ensures After(r, run).phase.Fatal?
  {
    if run != [] {
      FatalStaysLatched(r, run[..|run| - 1]);
      FatalLatch(After(r, run[..|run| - 1]), run[|run| - 1]);
    }
  }

  // ----- monotone authority -----

  /** The compatible hello that does not offer the feature, which forgets the held projection. */
  predicate Disables(e: Event) {
    e.HelloCall? && e.hello.RouteCompatible() && CORE_WORLD_FLOW_FEATURE_FLAG !in e.hello.featureFlags
  }

  datatype Mark = Mark(generation: nat, version: nat) {
    /** Lexicographic order on (generation, version). */
    predicate Le(other: Mark) {
      generation < other.generation || (generation == other.generation && version <= other.version)
    }
  }

  /** How far authority has advanced: the held pair, or past every version of the retired floor. */
  function MarkOf(r: Route): Mark {
    if r.state.Some? then Mark(r.state.value.actorGeneration, r.state.value.stateVersion)
    else Mark(r.retiredFloor, U64_MAX + 1)
  }

  lemma AcceptMonotone(r: Route, next: RouteState)
    requires Authentic(r)
    ensures MarkOf(r).Le(MarkOf(r.AcceptState(next).model))
    ensures r.AcceptState(next).model.retiredFloor == r.retiredFloor
  {
  }

  lemma ReconcileKeepsMark(r: Route)
    ensures MarkOf(r.Reconcile().model) == MarkOf(r) && r.Reconcile().model.retiredFloor == r.retiredFloor
  {
  }

  lemma LocationKeepsMark(r: Route, snapshot: LocationSnapshot)
    ensures MarkOf(r.Location(snapshot).model) == MarkOf(r) && r.Location(snapshot).model.retiredFloor == r.retiredFloor
  {
    ReconcileKeepsMark(r.(location := Some(snapshot)));
  }

  lemma ReadinessKeepsMark(r: Route, ready: SceneReadiness)
    ensures MarkOf(r.Readiness(ready).model) == MarkOf(r) && r.Readiness(ready).model.retiredFloor == r.retiredFloor
  {
    ReconcileKeepsMark(r.(readiness := Some(ready)));
  }

  lemma ReliableMonotone(r: Route, frame: ReliableFrame)
    requires Authentic(r)
    ensures MarkOf(r).Le(MarkOf(r.Reliable(frame).model)) && r.Reliable(frame).model.retiredFloor == r.retiredFloor
  {
    if frame.event.RouteStateEvent? {
      var accepted := r.AcceptState(frame.event.state).model;
      AcceptMonotone(r, frame.event.state);
      ReconcileKeepsMark(r);
      ReconcileKeepsMark(accepted.(lastReliableSequence := frame.sequence));
    }
  }

  lemma StepMonotone(r: Route, e: Event)
    requires Authentic(r)
    ensures MarkOf(r).Le(MarkOf(Apply(r, e).model)) <==> !(Disables(e) && r.state.Some?)
    ensures r.retiredFloor <= Apply(r, e).model.retiredFloor
  {
    match e {
      case HelloCall(hello) =>
      case LinkLostCall =>
      case TransferCall =>
      case TransitionCall(ready, current) => if current.Some? { LocationKeepsMark(r, current.value); }
      case LocationCall(snapshot) => LocationKeepsMark(r, snapshot);
      case ReliableCall(frame) => ReliableMonotone(r, frame);
      case ReadinessCall(readiness) => ReadinessKeepsMark(r, readiness);
      case RetireCall =>
    }
  }

  lemma {:induction false} RunMonotone(r: Route, run: seq<Event>)
    requires Authentic(r)
    ensures r.retiredFloor <= After(r, run).retiredFloor
    ensures (forall i :: 0 <= i < |run| ==> !Disables(run[i])) ==> MarkOf(r).Le(MarkOf(After(r, run)))
  {
    if run != [] {
      var before := run[..|run| - 1];
      RunMonotone(r, before);
      RunAuthentic(r, before);
      StepMonotone(After(r, before), run[|run| - 1]);
    }
  }

  lemma {:induction false} AfterSplit(r: Route, first: seq<Event>, rest: seq<Event>)
    ensures After(r, first + rest) == After(After(r, first), rest)
  {
    if rest == [] {
      assert first + rest == first;
    } else {
      assert (first + rest)[..|first + rest| - 1] == first + rest[..|rest| - 1];
      AfterSplit(r, first, rest[..|rest| - 1]);
    }
  }

  /**
   * Between any two moments with no feature-disabling handshake between them, link losses and
   * reconnects included, the held (generation, version) pair never goes back.
   */
  lemma AuthorityNeverRegresses(r: Route, run: seq<Event>, i: nat, j: nat)
    requires Authentic(r) && i <= j <= |run|
    requires forall k :: i <= k < j ==> !Disables(run[k])
    ensures MarkOf(After(r, run[..i])).Le(MarkOf(After(r, run[..j])))
    ensures After(r, run[..i]).state.Some? && After(r, run[..j]).state.Some? ==>
              !PairLess(After(r, run[..j]).state.value, After(r, run[..i]).state.value)
  {
    RunAuthentic(r, run[..i]);
    RunMonotone(After(r, run[..i]), run[i..j]);
    assert run[..j] == run[..i] + run[i..j];
    AfterSplit(r, run[..i], run[i..j]);
  }

  lemma RetireRaisesFloor(r: Route)
    requires r.Retire().reply.Pass?
    ensures r.state.Some? ==> r.Retire().model.retiredFloor >= r.state.value.actorGeneration
  {
  }

  /** After a retirement no projection of a retired generation is ever held again, in any run at all. */
  lemma RetiredStaysRetired(r: Route, run: seq<Event>, i: nat, j: nat)
    requires Authentic(r) && i < j <= |run|
    requires run[i].RetireCall? && Apply(After(r, run[..i]), run[i]).reply.Pass?
    ensures After(r, run[..i]).state.Some? && After(r, run[..j]).state.Some? ==>
              After(r, run[..j]).state.value.actorGeneration > After(r, run[..i]).state.value.actorGeneration
  {
    RetireRaisesFloor(After(r, run[..i]));
    AfterOne(r, run, i);
    RunAuthentic(r, run[..j]);
    FloorRises(r, run, i + 1, j);
  }

  lemma FloorRises(r: Route, run: seq<Event>, i: nat, j: nat)
    requires Authentic(r) && i <= j <= |run|
    ensures After(r, run[..i]).retiredFloor <= After(r, run[..j]).retiredFloor
  {
    RunAuthentic(r, run[..i]);
    RunMonotone(After(r, run[..i]), run[i..j]);
    assert run[..j] == run[..i] + run[i..j];
    AfterSplit(r, run[..i], run[i..j]);
  }

  /**
   * The premise about disabling handshakes is needed: one disabling hello, one enabling hello and one
   * frame put any valid projection above the retired floor in place, however old its pair is.
   */
  lemma DisablingForgetsAuthority(r: Route, off: ServerHello, on: ServerHello, frame: ReliableFrame)
    requires Authentic(r)
    requires Disables(HelloCall(off)) && on.RouteCompatible() && CORE_WORLD_FLOW_FEATURE_FLAG in on.featureFlags
    requires frame.Validate() && frame.event.RouteStateEvent?
    requires frame.event.state.characterId == r.characterId && frame.event.state.contentRevision == r.routeRevision
    ensures After(r, [HelloCall(off), HelloCall(on), ReliableCall(frame)]).state == Some(frame.event.state)
            <==> frame.event.state.actorGeneration > r.retiredFloor
  {
    AfterThree(r, HelloCall(off), HelloCall(on), ReliableCall(frame));
    var ready := r.ServerHello(off).model.ServerHello(on).model;
    assert ready.state.None? && ready.location.None? && ready.readiness.None? && ready.lastReliableSequence == 0;
    assert ready.Admit(frame.event.state).Admitted? <==> frame.event.state.actorGeneration > r.retiredFloor;
  }

  lemma AfterThree(r: Route, a: Event, b: Event, c: Event)
    ensures After(r, [a, b, c]) == Apply(Apply(Apply(r, a).model, b).model, c).model
  {
    var run := [a, b, c];
    AfterOne(r, run, 0);
    AfterOne(r, run, 1);
    AfterOne(r, run, 2);
    assert run[..0] == [] && run[..3] == run;
  }

  // ----- the generation token -----

  /** Calls that authorise one generation advance. */
  predicate Grants(r: Route, e: Event) {
    || (e.HelloCall? && e.hello.RouteCompatible() && CORE_WORLD_FLOW_FEATURE_FLAG in e.hello.featureFlags)
    || ((e.TransferCall? || e.RetireCall?) && r.featureAuthorized && !r.phase.Fatal?)
  }

  /** The call's frame is admitted over a held projection of an older generation. */
  predicate Advances(r: Route, e: Event) {
    && e.ReliableCall? && r.featureAuthorized
    && e.frame.Validate() && e.frame.event.RouteStateEvent? && e.frame.sequence > r.lastReliableSequence
    && r.AdvancesHeld(e.frame.event.state) && r.Admit(e.frame.event.state).Admitted?
  }

  /** The call delivers the durable location then held: it passes, or it changes what is held. */
  predicate AppliesLocation(r: Route, e: Event) {
    && (e.LocationCall? || e.TransitionCall?)
    && Apply(r, e).model.location.Some?
    && (Apply(r, e).reply.Pass? || Apply(r, e).model.location != r.location)
  }

  /** The call delivers the scene readiness then held: it passes, or it changes what is held. */
  predicate AppliesReadiness(r: Route, e: Event) {
    && e.ReadinessCall?
    && Apply(r, e).model.readiness.Some?
    && (Apply(r, e).reply.Pass? || Apply(r, e).model.readiness != r.readiness)
  }

  /** The step neither authorises an advance nor supplies a location or a readiness by itself. */
  predicate Supplies(before: Route, after: Route) {
    || (after.advanceAuthorized && !before.advanceAuthorized)
    || (after.location.Some? && before.location.None?)
    || (after.readiness.Some? && before.readiness.None?)
  }

  lemma AcceptSuppliesNothing(r: Route, next: RouteState)
    ensures !Supplies(r, r.AcceptState(next).model)
    ensures r.AcceptState(next).reply.Pass? && r.AdvancesHeld(next) ==>
              var accepted := r.AcceptState(next).model;
              accepted.state == Some(next) && r.advanceAuthorized && !accepted.advanceAuthorized && accepted.location.None? && accepted.readiness.None?
    ensures r.AcceptState(next).reply.Fail? ==> r.AcceptState(next).model.state == r.state
  {
  }

  lemma ReconcileSuppliesNothing(r: Route)
    ensures !Supplies(r, r.Reconcile().model) && r.Reconcile().model.state == r.state
  {
  }

  lemma ReliableToken(r: Route, frame: ReliableFrame)
    ensures !Supplies(r, r.Reliable(frame).model)
    ensures Advances(r, ReliableCall(frame)) ==>
              var after := r.Reliable(frame).model;
              after.state == Some(frame.event.state) && r.advanceAuthorized && !after.advanceAuthorized && after.location.None? && after.readiness.None?
  {
    if frame.event.RouteStateEvent? {
      var accepted := r.AcceptState(frame.event.state).model;
      AcceptSuppliesNothing(r, frame.event.state);
      ReconcileSuppliesNothing(r);
      ReconcileSuppliesNothing(accepted.(lastReliableSequence := frame.sequence));
    }
  }

  lemma LocationToken(r: Route, snapshot: LocationSnapshot)
    ensures var after := r.Location(snapshot).model;
            (after.advanceAuthorized ==> r.advanceAuthorized) && (after.readiness.Some? ==> r.readiness.Some?)
  {
    ReconcileSuppliesNothing(r.(location := Some(snapshot)));
  }

  lemma ReadinessToken(r: Route, ready: SceneReadiness)
    ensures var after := r.Readiness(ready).model;
            (after.advanceAuthorized ==> r.advanceAuthorized) && (after.location.Some? ==> r.location.Some?)
  {
    ReconcileSuppliesNothing(r.(readiness := Some(ready)));
  }

  lemma StepToken(r: Route, e: Event)
    ensures Advances(r, e) ==>
              && Apply(r, e).model.state == Some(e.frame.event.state)
              && r.advanceAuthorized
              && !Apply(r, e).model.advanceAuthorized
              && Apply(r, e).model.location.None?
              && Apply(r, e).model.readiness.None?
    ensures Apply(r, e).model.advanceAuthorized ==> r.advanceAuthorized || Grants(r, e)
    ensures Apply(r, e).model.location.Some? ==> r.location.Some? || AppliesLocation(r, e)
    ensures Apply(r, e).model.readiness.Some? ==> r.readiness.Some? || AppliesReadiness(r, e)
  {
    match e {
      case HelloCall(hello) =>
      case LinkLostCall =>
      case TransferCall =>
      case TransitionCall(ready, current) => if current.Some? { LocationToken(r, current.value); }
      case LocationCall(snapshot) => LocationToken(r, snapshot);
      case ReliableCall(frame) => ReliableToken(r, frame);
      case ReadinessCall(readiness) => ReadinessToken(r, readiness);
      case RetireCall =>
    }
  }

  /** The model after the first `i` calls of a run; past the end it stays at the last one. */
  function At(r: Route, run: seq<Event>, i: nat): Route {
    After(r, run[..if i <= |run| then i else |run|])
  }

  lemma AtNext(r: Route, run: seq<Event>, i: nat)
    requires i < |run|
    ensures At(r, run, i + 1) == Apply(At(r, run, i), run[i]).model
  {
    AfterOne(r, run, i);
  }

  /** An advance at call `i` needed the token and used it up, along with the location and readiness. */
  lemma AdvanceAt(r: Route, run: seq<Event>, i: nat)
    requires i < |run| && Advances(At(r, run, i), run[i])
    ensures At(r, run, i).advanceAuthorized
    ensures !At(r, run, i + 1).advanceAuthorized
    ensures At(r, run, i + 1).location.None? && At(r, run, i + 1).readiness.None?
  {
    AtNext(r, run, i);
    StepToken(At(r, run, i), run[i]);
  }

  lemma RiseAt(r: Route, run: seq<Event>, i: nat)
    requires i < |run|
    ensures At(r, run, i + 1).advanceAuthorized ==> At(r, run, i).advanceAuthorized || Grants(At(r, run, i), run[i])
    ensures At(r, run, i + 1).location.Some? ==> At(r, run, i).location.Some? || AppliesLocation(At(r, run, i), run[i])
    ensures At(r, run, i + 1).readiness.Some? ==> At(r, run, i).readiness.Some? || AppliesReadiness(At(r, run, i), run[i])
  {
    AtNext(r, run, i);
    StepToken(At(r, run, i), run[i]);
  }

  lemma GrantBetween(r: Route, run: seq<Event>, lo: nat, hi: nat) returns (k: nat)
    requires lo <= hi <= |run|
    requires !At(r, run, lo).advanceAuthorized && At(r, run, hi).advanceAuthorized
    ensures lo <= k < hi && Grants(At(r, run, k), run[k])
  {
    k := Rises((n: nat) => At(r, run, n).advanceAuthorized, lo, hi);
    RiseAt(r, run, k);
  }

  lemma LocationBetween(r: Route, run: seq<Event>, lo: nat, hi: nat) returns (k: nat)
    requires lo <= hi <= |run|
    requires At(r, run, lo).location.None? && At(r, run, hi).location.Some?
    ensures lo <= k < hi && AppliesLocation(At(r, run, k), run[k])
  {
    k := Rises((n: nat) => At(r, run, n).location.Some?, lo, hi);
    RiseAt(r, run, k);
  }

  lemma ReadinessBetween(r: Route, run: seq<Event>, lo: nat, hi: nat) returns (k: nat)
    requires lo <= hi <= |run|
    requires At(r, run, lo).readiness.None? && At(r, run, hi).readiness.Some?
    ensures lo <= k < hi && AppliesReadiness(At(r, run, k), run[k])
  {
    k := Rises((n: nat) => At(r, run, n).readiness.Some?, lo, hi);
    RiseAt(r, run, k);
  }

  /** Two advances over a held projection are separated by a granting call. */
  lemma AdvancesAreSeparatelyGranted(r: Route, run: seq<Event>, i: nat, j: nat) returns (k: nat)
    requires i < j < |run|
    requires Advances(At(r, run, i), run[i]) && Advances(At(r, run, j), run[j])
    ensures i < k < j && Grants(At(r, run, k), run[k])
  {
    AdvanceAt(r, run, i);
    AdvanceAt(r, run, j);
    k := GrantBetween(r, run, i + 1, j);
  }

  lemma ControlNeedsBoth(r: Route, run: seq<Event>, j: nat)
    requires Authentic(r) && j <= |run|
    ensures At(r, run, j).phase.Controllable? ==> At(r, run, j).location.Some? && At(r, run, j).readiness.Some?
  {
    RunAuthentic(r, run[..j]);
  }

  /** Control after an advance rests on a location and a readiness that both arrived after it. */
  lemma ControlAfterAdvanceIsFresh(r: Route, run: seq<Event>, i: nat, j: nat) returns (located: nat, readied: nat)
    requires Authentic(r) && i < j <= |run|
    requires Advances(At(r, run, i), run[i]) && At(r, run, j).phase.Controllable?
    ensures i < located < j && AppliesLocation(At(r, run, located), run[located])
    ensures i < readied < j && AppliesReadiness(At(r, run, readied), run[readied])
  {
    AdvanceAt(r, run, i);
    ControlNeedsBoth(r, run, j);
    located := LocationBetween(r, run, i + 1, j);
    readied := ReadinessBetween(r, run, i + 1, j);
  }
}
