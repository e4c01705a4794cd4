/** The edge-and-suppress latch behind every sampled button, and the closed form of its counter. */
module PressSampler {
  import opened Basics

  /** One sampling of a physical button while input is or is not blocked. */
  datatype Tick = Tick(pressed: bool, blocked: bool)

  datatype Latch = Latch(wasPressed: bool, suppressed: bool)

  datatype Button = Button(latch: Latch, sequence: u32)

  datatype Sampled = Sampled(button: Button, exhausted: bool)

  const RELEASED := Button(Latch(false, false), 0)

  function Sample(b: Button, t: Tick): Sampled {
    if t.blocked then Sampled(b.(latch := Latch(t.pressed, b.latch.suppressed || t.pressed)), false)
    else if b.latch.suppressed then Sampled(b.(latch := Latch(t.pressed, t.pressed)), false)
    else if t.pressed && !b.latch.wasPressed then
      if b.sequence == U32_MAX then Sampled(b, true)
      else Sampled(Button(Latch(true, false), b.sequence + 1), false)
    else Sampled(b.(latch := Latch(t.pressed, false)), false)
  }

  /** The primary button also reports whether it is held. */
  predicate Held(b: Button, t: Tick) {
    t.pressed && !t.blocked && !b.latch.suppressed
  }

  function After(b: Button, history: seq<Tick>): Button {
    if history == [] then b else Sample(After(b, history[..|history| - 1]), history[|history| - 1]).button
  }

  // ----- the meaning of the counter -----

  predicate PressedBefore(history: seq<Tick>, i: nat)
    requires i <= |history|
  {
    i > 0 && history[i - 1].pressed
  }

  /** Tick `j` was pressed while blocked, and no unblocked release has come between it and tick `i`. */
  predicate Latches(history: seq<Tick>, j: nat, i: nat)
    requires j < i <= |history|
  {
    history[j].blocked && history[j].pressed && forall k :: j < k < i ==> history[k].blocked || history[k].pressed
  }

  predicate Latched(history: seq<Tick>, i: nat)
    requires i <= |history|
  {
    exists j: nat :: j < i && Latches(history, j, i)
  }

  /** Tick `i` is pressed, unblocked, just risen and not latched. */
  predicate Counted(history: seq<Tick>, i: nat)
    requires i < |history|
  {
    history[i].pressed && !history[i].blocked && !PressedBefore(history, i) && !Latched(history, i)
  }

  /** The counted ticks before tick `n`. */
  function Presses(history: seq<Tick>, n: nat): (ticks: set<nat>)
    requires n <= |history|
    ensures forall i: nat :: i in ticks <==> i < n && Counted(history, i)
  {
    set i: nat | i < n && Counted(history, i)
  }

  lemma LatchedStep(history: seq<Tick>, i: nat)
    requires i < |history|
    ensures Latched(history, i + 1) <==>
              if history[i].blocked then history[i].pressed || Latched(history, i)
              else history[i].pressed && Latched(history, i)
  {
    if Latched(history, i) && (history[i].blocked || history[i].pressed) {
      var j: nat :| j < i && Latches(history, j, i);
      assert Latches(history, j, i + 1);
    }
    if history[i].blocked && history[i].pressed {
      assert Latches(history, i, i + 1);
    }
    if Latched(history, i + 1) {
      var j: nat :| j < i + 1 && Latches(history, j, i + 1);
      assert j < i ==> Latches(history, j, i);
    }
  }

  lemma PressesStep(history: seq<Tick>, i: nat)
    requires i < |history|
    ensures |Presses(history, i + 1)| == |Presses(history, i)| + if Counted(history, i) then 1 else 0
  {
    if Counted(history, i) {
      assert Presses(history, i + 1) == Presses(history, i) + {i};
    } else {
      assert Presses(history, i + 1) == Presses(history, i);
    }
  }

  /**
   * While the count fits in 32 bits the sampler is a function of the whole history: its counter is the
   * number of counted ticks and its latch is the history's latch.
   */
  lemma {:induction false} ClosedForm(history: seq<Tick>, n: nat)
    requires n <= |history| && |Presses(history, n)| <= U32_MAX
    ensures After(RELEASED, history[..n])
            == Button(Latch(PressedBefore(history, n), Latched(history, n)), |Presses(history, n)|)
  {
    if n > 0 {
      PressesStep(history, n - 1);
      LatchedStep(history, n - 1);
      ClosedForm(history, n - 1);
      assert history[..n][..n - 1] == history[..n - 1];
    }
  }

  /** Exhaustion is reported exactly at a counted tick that would overflow, and it changes nothing. */
  lemma ExhaustionIsOverflow(history: seq<Tick>, i: nat)
    requires i < |history| && |Presses(history, i)| <= U32_MAX
    ensures var before := After(RELEASED, history[..i]);
            && (Sample(before, history[i]).exhausted <==> Counted(history, i) && |Presses(history, i)| == U32_MAX)
            && (Sample(before, history[i]).exhausted ==> Sample(before, history[i]).button == before)
  {
    ClosedForm(history, i);
  }

  /** The history without the ticks at which the counter was exhausted. */
  function Kept(history: seq<Tick>): seq<Tick> {
    if history == [] then []
    else
      var (before, last) := (Kept(history[..|history| - 1]), history[|history| - 1]);
      if Sample(After(RELEASED, before), last).exhausted then before else before + [last]
  }

  lemma PrefixLatched(history: seq<Tick>, last: Tick, i: nat)
    requires i <= |history|
    ensures Latched(history + [last], i) == Latched(history, i)
  {
    var longer := history + [last];
    forall j: nat | j < i ensures Latches(longer, j, i) == Latches(history, j, i) {
      assert forall k :: 0 <= k < |history| ==> longer[k] == history[k];
    }
  }

  lemma PrefixPresses(history: seq<Tick>, last: Tick)
    ensures Presses(history + [last], |history|) == Presses(history, |history|)
  {
    forall i: nat | i < |history| ensures Counted(history + [last], i) == Counted(history, i) {
      PrefixLatched(history, last, i);
    }
  }

  /** With no bound at all: exhausted ticks leave no trace, and the closed form holds of the others. */
  lemma {:induction false} EveryHistory(history: seq<Tick>)
    ensures var kept := Kept(history);
            && |Presses(kept, |kept|)| <= U32_MAX
            && After(RELEASED, history)
               == Button(Latch(PressedBefore(kept, |kept|), Latched(kept, |kept|)), |Presses(kept, |kept|)|)
  {
    var kept := Kept(history);
    if history != [] {
      var (before, last) := (Kept(history[..|history| - 1]), history[|history| - 1]);
      EveryHistory(history[..|history| - 1]);
      ClosedForm(before, |before|);
      assert before[..|before|] == before;
      if kept != before {
        assert kept == before + [last] && kept[..|before|] == before;
        PrefixPresses(before, last);
        PressesStep(kept, |before|);
        ExhaustionIsOverflow(kept, |before|);
      }
    }
    ClosedForm(kept, |kept|);
    assert kept[..|kept|] == kept;
    if history != [] {
      KeptStep(history);
    }
  }

  lemma KeptStep(history: seq<Tick>)
    requires history != []
    requires After(RELEASED, history[..|history| - 1]) == After(RELEASED, Kept(history[..|history| - 1]))
    ensures After(RELEASED, history) == After(RELEASED, Kept(history))
  {
    var (before, last) := (Kept(history[..|history| - 1]), history[|history| - 1]);
    assert (before + [last])[..|before|] == before;
  }

  /** Tick `s` is the counted start of an unbroken press that reaches tick `i`. */
  predicate StartsHold(history: seq<Tick>, s: nat, i: nat)
    requires s <= i < |history|
  {
    Counted(history, s) && forall k :: s <= k <= i ==> history[k].pressed
  }

  lemma {:induction false} HoldHasStart(history: seq<Tick>, i: nat) returns (s: nat)
    requires i < |history| && history[i].pressed && !history[i].blocked && !Latched(history, i)
    ensures s <= i && StartsHold(history, s, i)
  {
    if !PressedBefore(history, i) { return i; }
    LatchedStep(history, i - 1);
    s := HoldHasStart(history, i - 1);
  }

  lemma HoldHasOneStart(history: seq<Tick>, s: nat, t: nat, i: nat)
    requires s < t <= i < |history| && StartsHold(history, s, i)
    ensures !Counted(history, t)
  {
    assert history[t - 1].pressed;
  }

  /** The held flag the primary sampler stores after a history; an exhausted tick leaves it alone. */
  predicate ReportedHeld(history: seq<Tick>) {
    history != []
    && var (front, last) := (history[..|history| - 1], history[|history| - 1]);
    if Sample(After(RELEASED, front), last).exhausted then ReportedHeld(front) else Held(After(RELEASED, front), last)
  }

  /** The stored flag is up exactly when the last tick that was not exhausted is pressed, unblocked and not latched. */
  lemma {:induction false} FlagMeaning(history: seq<Tick>)
    ensures var kept := Kept(history);
            ReportedHeld(history) <==>
              kept != [] && kept[|kept| - 1].pressed && !kept[|kept| - 1].blocked && !Latched(kept, |kept| - 1)
  {
    if history != [] {
      var (front, last) := (history[..|history| - 1], history[|history| - 1]);
      var before := Kept(front);
      EveryHistory(front);
      if Sample(After(RELEASED, before), last).exhausted {
        KeptState(front);
        FlagMeaning(front);
      } else {
        KeptState(front);
        assert Kept(history) == before + [last];
        PrefixLatched(before, last, |before|);
      }
    }
  }

  lemma KeptState(history: seq<Tick>)
    ensures After(RELEASED, history) == After(RELEASED, Kept(history))
  {
    var kept := Kept(history);
    EveryHistory(history);
    ClosedForm(kept, |kept|);
    assert kept[..|kept|] == kept;
  }

  /**
   * After every history at all, a stored held flag belongs to a press of the ticks that left a trace,
   * still unbroken at the last of them and counted exactly once, at its rising edge.
   */
  lemma HeldMeansCountedOnce(history: seq<Tick>)
    requires ReportedHeld(history)
    ensures var kept := Kept(history);
            && kept != []
            && var i := |kept| - 1;
            && (exists s: nat :: s <= i && StartsHold(kept, s, i))
            && (forall s: nat, t: nat :: s <= i && t <= i && StartsHold(kept, s, i) && StartsHold(kept, t, i) ==> s == t)
  {
    FlagMeaning(history);
    var kept := Kept(history);
    var i := |kept| - 1;
    var s := HoldHasStart(kept, i);
    forall s: nat, t: nat | s < t <= i && StartsHold(kept, s, i) ensures !StartsHold(kept, t, i) {
      HoldHasOneStart(kept, s, t, i);
    }
  }

  // ----- the five samplers -----

  class CombatInputSampler {
    var primaryHeld: bool
    var primaryPressSequence: u32
    var ability1PressSequence: u32
    var ability2PressSequence: u32
    var primary: Latch
    var ability1: Latch
    var ability2: Latch

    constructor ()
      ensures !primaryHeld
      ensures Button(primary, primaryPressSequence) == RELEASED
      ensures Button(ability1, ability1PressSequence) == RELEASED
      ensures Button(ability2, ability2PressSequence) == RELEASED
    {
      primaryHeld, primaryPressSequence, ability1PressSequence, ability2PressSequence := false, 0, 0, 0;
      primary, ability1, ability2 := Latch(false, false), Latch(false, false), Latch(false, false);
    }

    method SamplePrimary(pressed: bool, blocked: bool) returns (exhausted: bool)
      modifies this`primary, this`primaryPressSequence, this`primaryHeld
      ensures Sampled(Button(primary, primaryPressSequence), exhausted)
              == Sample(old(Button(primary, primaryPressSequence)), Tick(pressed, blocked))
      ensures primaryHeld == if exhausted then old(primaryHeld)
                             else Held(old(Button(primary, primaryPressSequence)), Tick(pressed, blocked))
    {
      if blocked {
        primaryHeld := false;
        primary := Latch(pressed, primary.suppressed || pressed);
        return false;
      }
      if primary.suppressed {
        primaryHeld := false;
        if !pressed {
          primary := primary.(suppressed := false);
        }
        primary := primary.(wasPressed := pressed);
        return false;
      }
      if pressed && !primary.wasPressed {
        if primaryPressSequence == U32_MAX { return true; }
        primaryPressSequence := primaryPressSequence + 1;
      }
      primaryHeld := pressed;
      primary := primary.(wasPressed := pressed);
      return false;
    }

    method SampleAbilityOne(pressed: bool, blocked: bool) returns (exhausted: bool)
      modifies this`ability1, this`ability1PressSequence
      ensures Sampled(Button(ability1, ability1PressSequence), exhausted)
              == Sample(old(Button(ability1, ability1PressSequence)), Tick(pressed, blocked))
    {
      if blocked {
        ability1 := Latch(pressed, ability1.suppressed || pressed);
        return false;
      }
      if ability1.suppressed {
        if !pressed {
          ability1 := ability1.(suppressed := false);
        }
        ability1 := ability1.(wasPressed := pressed);
        return false;
      }
      if pressed && !ability1.wasPressed {
        if ability1PressSequence == U32_MAX { return true; }
        ability1PressSequence := ability1PressSequence + 1;
      }
      ability1 := ability1.(wasPressed := pressed);
      return false;
    }

    method SampleAbilityTwo(pressed: bool, blocked: bool) returns (exhausted: bool)
      modifies this`ability2, this`ability2PressSequence
      ensures Sampled(Button(ability2, ability2PressSequence), exhausted)
              == Sample(old(Button(ability2, ability2PressSequence)), Tick(pressed, blocked))
    {
      if blocked {
        ability2 := Latch(pressed, ability2.suppressed || pressed);
        return false;
      }
      if ability2.suppressed {
        if !pressed {
          ability2 := ability2.(suppressed := false);
        }
        ability2 := ability2.(wasPressed := pressed);
        return false;
      }
      if pressed && !ability2.wasPressed {
        if ability2PressSequence == U32_MAX { return true; }
        ability2PressSequence := ability2PressSequence + 1;
      }
      ability2 := ability2.(wasPressed := pressed);
      return false;
    }
  }

  class ConsumableInputSampler {
    var useQPressSequence: u32
    var useSecondSlotPressSequence: u32
    var q: Latch
    var second: Latch

    constructor ()
      ensures Button(q, useQPressSequence) == RELEASED
      ensures Button(second, useSecondSlotPressSequence) == RELEASED
    {
      useQPressSequence, useSecondSlotPressSequence := 0, 0;
      q, second := Latch(false, false), Latch(false, false);
    }

    method SampleQ(pressed: bool, blocked: bool) returns (exhausted: bool)
      modifies this`q, this`useQPressSequence
      ensures Sampled(Button(q, useQPressSequence), exhausted)
              == Sample(old(Button(q, useQPressSequence)), Tick(pressed, blocked))
    {
      if blocked {
        q := Latch(pressed, q.suppressed || pressed);
        return false;
      }
      if q.suppressed {
        if !pressed {
          q := q.(suppressed := false);
        }
        q := q.(wasPressed := pressed);
        return false;
      }
      if pressed && !q.wasPressed {
        if useQPressSequence == U32_MAX { return true; }
        useQPressSequence := useQPressSequence + 1;
      }
      q := q.(wasPressed := pressed);
      return false;
    }

    method SampleSecond(pressed: bool, blocked: bool) returns (exhausted: bool)
      modifies this`second, this`useSecondSlotPressSequence
      ensures Sampled(Button(second, useSecondSlotPressSequence), exhausted)
              == Sample(old(Button(second, useSecondSlotPressSequence)), Tick(pressed, blocked))
    {
      if blocked {
        second := Latch(pressed, second.suppressed || pressed);
        return false;
      }
      if second.suppressed {
        if !pressed {
          second := second.(suppressed := false);
        }
        second := second.(wasPressed := pressed);
        return false;
      }
      if pressed && !second.wasPressed {
        if useSecondSlotPressSequence == U32_MAX { return true; }
        useSecondSlotPressSequence := useSecondSlotPressSequence + 1;
      }
      second := second.(wasPressed := pressed);
      return false;
    }
  }
}
