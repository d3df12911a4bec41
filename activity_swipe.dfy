/** The activity swipe stack: the drag gesture on the top card, the commit of a
    swipe once the card is dragged far enough, the step to the next card when
    the card's exit animation ends, and the reset of the stack.

    The gesture state is a value (`Gesture`) with one function per event; the
    component (`SwipeController`) holds the same state in fields and each of its
    handlers is proved to make the step the function describes. The store the
    swipe is recorded in is outside the model: its outcome is a parameter. */
module ActivitySwipe {
  import opened Text
  import opened Store

  /** A pointer position or a drag distance, in whole pixels. */
  datatype Point = Point(x: int, y: int)

  const Origin: Point := Point(0, 0)

  datatype SwipeAction = Yes | No

  /** The stored spelling of an action. */
  function ActionName(a: SwipeAction): (name: string)
    ensures name == "yes" || name == "no"
  {
    match a
    case Yes => "yes"
    case No => "no"
  }

  /** The fields of an activity card the swipe uses. */
  datatype Activity = Activity(id: int, title: string)

  // ---------------------------------------------------------------- activity identifiers

  /** The stored identifier of each of the six sample activities. */
  const UuidPrefix: string := "00000000-0000-0000-0000-00000000000"

  /** The stored identifier of a sample activity, if it has one. */
  function ActivityUuid(id: int): Option<string>
  {
    if 1 <= id <= 6 then Some(UuidPrefix + [DigitChar(id)]) else None
  }

  /** Exactly the ids 1 to 6 have an identifier, each its own, ending in the
      id's digit. */
  lemma ActivityUuidTable(id: int, other: int)
    ensures ActivityUuid(id).Some? <==> 1 <= id <= 6
    ensures ActivityUuid(id).Some? ==>
      |ActivityUuid(id).value| == 36 && ActivityUuid(id).value[35] == DigitChar(id)
    ensures ActivityUuid(id).Some? && ActivityUuid(id) == ActivityUuid(other) ==> id == other
  {
    if ActivityUuid(id).Some? && ActivityUuid(id) == ActivityUuid(other) {
      assert ActivityUuid(id).value[35] == DigitChar(id);
      assert ActivityUuid(other).value[35] == DigitChar(other);
    }
  }

  // ---------------------------------------------------------------- the gesture

  /** The swipe stack's state: the card on top, whether its exit animation is
      running, whether it is being dragged, where the drag started and how far
      it has gone. */
  datatype Gesture = Gesture(
    currentIndex: nat,
    isAnimating: bool,
    isDragging: bool,
    dragStart: Point,
    dragOffset: Point)

  const Initial: Gesture := Gesture(0, false, false, Origin, Origin)

  /** How far a card must be dragged sideways, strictly beyond, to be swiped. */
  const Threshold: int := 100

  /** The swipe a release commits for a sideways drag of `x` pixels, if any. */
  function ReleaseDecision(x: int): Option<SwipeAction>
  {
    if (if x < 0 then -x else x) > Threshold then Some(if x > 0 then Yes else No) else None
  }

  /** A press (mouse or touch) starts a drag, unless a card is animating out. */
  function Pressed(g: Gesture, p: Point): Gesture
  {
    if g.isAnimating then g else g.(isDragging := true, dragStart := p)
  }

  /** A move during a drag sets the offset to the distance from the drag's start. */
  function Moved(g: Gesture, p: Point): Gesture
  {
    if !g.isDragging || g.isAnimating then g
    else g.(dragOffset := Point(p.x - g.dragStart.x, p.y - g.dragStart.y))
  }

  /** `handleSwipe`'s effect on the gesture: a swipe of the top card starts its
      exit animation; with a card animating or no card left it does nothing. */
  function SwipeStarted(g: Gesture, count: nat): Gesture
  {
    if g.isAnimating || g.currentIndex >= count then g else g.(isAnimating := true)
  }

  /** A release ends the drag: past the threshold it swipes the card, otherwise
      the card snaps back. Outside a drag, or while animating, it does nothing. */
  function Released(g: Gesture, count: nat): Gesture
  {
    if !g.isDragging || g.isAnimating then g
    else
      var ended := g.(isDragging := false);
      if ReleaseDecision(g.dragOffset.x).Some? then SwipeStarted(ended, count)
      else ended.(dragOffset := Origin)
  }

  /** The end of the exit animation: the next card comes to the top. */
  function Advanced(g: Gesture): Gesture
  {
    g.(currentIndex := g.currentIndex + 1, dragOffset := Origin, isAnimating := false)
  }

  /** `resetStack`: back to the first card, centred and still. */
  function Reset(g: Gesture): Gesture
  {
    g.(currentIndex := 0, dragOffset := Origin, isAnimating := false)
  }

  /** The stack has run out: the "all caught up" view is shown. */
  predicate AllCaughtUp(g: Gesture, count: nat)
  {
    g.currentIndex >= count
  }

  /** The state the handlers keep: the top card is at most one past the last,
      and only an existing card animates. */
  predicate Consistent(g: Gesture, count: nat)
  {
    g.currentIndex <= count && (g.isAnimating ==> g.currentIndex < count)
  }

  // ---------------------------------------------------------------- what the gesture promises

  /** A release swipes right beyond 100 pixels, left beyond -100, and nothing
      in between, 100 and -100 included. */
  lemma ReleaseDecisionMeaning(x: int)
    ensures ReleaseDecision(x) == Some(Yes) <==> x > 100
    ensures ReleaseDecision(x) == Some(No) <==> x < -100
    ensures ReleaseDecision(x).None? <==> -100 <= x <= 100
  {
  }

  /** The guards: a press is ignored while animating; a move or a release is
      ignored unless dragging and not animating; a move sets the offset to the
      pointer's distance from the start. */
  lemma GestureGuards(g: Gesture, p: Point, count: nat)
    ensures g.isAnimating ==> Pressed(g, p) == g
    ensures !g.isAnimating ==> Pressed(g, p).isDragging && Pressed(g, p).dragStart == p
    ensures !g.isDragging || g.isAnimating ==> Moved(g, p) == g && Released(g, count) == g
    ensures g.isDragging && !g.isAnimating ==>
      Moved(g, p).dragOffset == Point(p.x - g.dragStart.x, p.y - g.dragStart.y)
      && Moved(g, p).currentIndex == g.currentIndex
      && !Released(g, count).isDragging
  {
  }

  /** A release during a drag, with a card on top, either starts that card's
      exit (beyond the threshold) or puts it back in the centre; the top card
      does not change either way. */
  lemma ReleaseOutcome(g: Gesture, count: nat)
    requires g.isDragging && !g.isAnimating && g.currentIndex < count
    ensures Released(g, count).currentIndex == g.currentIndex
    ensures Released(g, count).isAnimating <==> ReleaseDecision(g.dragOffset.x).Some?
    ensures !Released(g, count).isAnimating ==> Released(g, count).dragOffset == Origin
  {
  }

  /** A completed swipe moves exactly one card on, centred and still. */
  lemma SwipeAdvancesByOne(g: Gesture, count: nat)
    requires !g.isAnimating && g.currentIndex < count
    ensures var h := Advanced(SwipeStarted(g, count));
      h.currentIndex == g.currentIndex + 1 && h.dragOffset == Origin && !h.isAnimating
  {
  }

  /** A swipe is ignored while a card animates or when the stack has run out. */
  lemma SwipeIgnored(g: Gesture, count: nat)
    requires g.isAnimating || AllCaughtUp(g, count)
    ensures SwipeStarted(g, count) == g
  {
  }

  /** Resetting gives the first card, centred and still, and resetting twice
      is resetting once. */
  lemma ResetIdempotent(g: Gesture, count: nat)
    ensures Reset(g).currentIndex == 0 && Reset(g).dragOffset == Origin && !Reset(g).isAnimating
    ensures Reset(Reset(g)) == Reset(g)
    ensures Consistent(Reset(g), count)
    ensures AllCaughtUp(Reset(g), count) <==> count == 0
  {
  }

  /** Every handler keeps the state consistent, so the exit animation only
      ever ends for a card that exists, and the top card never goes past the
      "all caught up" position. */
  lemma ConsistentPreserved(g: Gesture, p: Point, count: nat)
    requires Consistent(g, count)
    ensures Consistent(Pressed(g, p), count)
    ensures Consistent(Moved(g, p), count)
    ensures Consistent(SwipeStarted(g, count), count)
    ensures Consistent(Released(g, count), count)
    ensures g.isAnimating ==> Consistent(Advanced(g), count)
    ensures Consistent(Reset(g), count)
  {
  }

  // ---------------------------------------------------------------- what the card shows

  /** The opacity of the PASS and LIKE marks for a sideways drag of `x` pixels. */
  function PassOpacity(x: int): real
  {
    if x < -50 then (if -x >= 100 then 1.0 else (-x) as real / 100.0) else 0.0
  }

  function LikeOpacity(x: int): real
  {
    if x > 50 then (if x >= 100 then 1.0 else x as real / 100.0) else 0.0
  }

  /** PASS shows only for a drag left of -50 pixels and LIKE only right of 50;
      never both, and each is at most fully opaque. */
  lemma MarksVisible(x: int)
    ensures PassOpacity(x) > 0.0 <==> x < -50
    ensures LikeOpacity(x) > 0.0 <==> x > 50
    ensures !(PassOpacity(x) > 0.0 && LikeOpacity(x) > 0.0)
    ensures 0.0 <= PassOpacity(x) <= 1.0 && 0.0 <= LikeOpacity(x) <= 1.0
  {
  }

  /** The progress line under the card: its place, counted from one, and the count. */
  function ProgressLabel(index: nat, count: nat): string
  {
    NatToString(index + 1) + " / " + NatToString(count)
  }

  /** The progress line reads back as the card's place, from 1 to the count. */
  lemma ProgressLabelReads(index: nat, count: nat)
    requires index < count
    ensures var line := ProgressLabel(index, count);
      var cut := |NatToString(index + 1)|;
      cut + 3 <= |line| && AllDigits(line[..cut]) && AllDigits(line[cut + 3..])
      && ParseDigits(line[..cut]) == index + 1
      && 1 <= ParseDigits(line[..cut]) <= count
      && line[cut..] == " / " + NatToString(count)
      && ParseDigits(line[cut + 3..]) == count
  {
    var line := ProgressLabel(index, count);
    var cut := |NatToString(index + 1)|;
    assert line[..cut] == NatToString(index + 1);
    assert line[cut..] == " / " + NatToString(count);
    assert line[cut + 3..] == NatToString(count);
    ParseNatToString(index + 1);
    ParseNatToString(count);
  }

  // ---------------------------------------------------------------- the component

  /** What a swipe asks the store to record. */
  datatype SwipeRecord = SwipeRecord(swiperId: string, activityId: string, action: string)

  /** The record a swipe of the top card asks for; none when the activity has
      no stored identifier (the swipe then fails before reaching the store). */
  function SwipeRequest(activities: seq<Activity>, index: nat, userId: string, a: SwipeAction): (r: Option<SwipeRecord>)
    requires index < |activities|
    ensures r.Some? <==> 1 <= activities[index].id <= 6
    ensures r.Some? ==>
      (r.value.swiperId == userId && r.value.action == ActionName(a)
       && Some(r.value.activityId) == ActivityUuid(activities[index].id))
  {
    match ActivityUuid(activities[index].id)
    case Some(uuid) => Some(SwipeRecord(userId, uuid, ActionName(a)))
    case None => None
  }

  class SwipeController {
    const activities: seq<Activity>
    const userId: string
    var currentIndex: nat
    var isAnimating: bool
    var isDragging: bool
    var dragStart: Point
    var dragOffset: Point

    function State(): Gesture
      reads this
    {
      Gesture(currentIndex, isAnimating, isDragging, dragStart, dragOffset)
    }

    predicate Valid()
      reads this
    {
      Consistent(State(), |activities|)
    }

    constructor(activities: seq<Activity>, userId: string)
      ensures Valid() && State() == Initial
      ensures this.activities == activities && this.userId == userId
    {
      this.activities, this.userId := activities, userId;
      currentIndex, isAnimating, isDragging := 0, false, false;
      dragStart, dragOffset := Origin, Origin;
    }

    /** `handleMouseDown` and `handleTouchStart`. */
    method Press(p: Point)
      requires Valid()
      modifies this
      ensures Valid() && State() == Pressed(old(State()), p)
    {
      if isAnimating {
        return;
      }
      isDragging := true;
      dragStart := p;
    }

    /** `handleMouseMove` and `handleTouchMove`. */
    method Move(p: Point)
      requires Valid()
      modifies this
      ensures Valid() && State() == Moved(old(State()), p)
    {
      if !isDragging || isAnimating {
        return;
      }
      dragOffset := Point(p.x - dragStart.x, p.y - dragStart.y);
    }

    /** `handleSwipe`: starts the top card's exit and asks the store to record
        the swipe. `request` is the record asked for, and `notified` whether the
        history was told of a new entry; the gesture does the same whatever the
        store answers. */
    method Swipe(a: SwipeAction, store: StoreResult) returns (request: Option<SwipeRecord>, notified: bool)
      requires Valid()
      modifies this
      ensures Valid() && State() == SwipeStarted(old(State()), |activities|)
      ensures old(isAnimating) || old(currentIndex) >= |activities| ==> request.None? && !notified
      ensures !old(isAnimating) && old(currentIndex) < |activities| ==>
        request == SwipeRequest(activities, old(currentIndex), userId, a)
        && (notified <==> request.Some? && store.Stored?)
    {
      request, notified := None, false;
      if isAnimating || currentIndex >= |activities| {
        return;
      }
      isAnimating := true;
      var uuid := ActivityUuid(activities[currentIndex].id);
      if uuid.None? {
        return;
      }
      request := Some(SwipeRecord(userId, uuid.value, ActionName(a)));
      notified := store.Stored?;
    }

    /** `handleMouseUp` (also on the pointer leaving the card) and `handleTouchEnd`. */
    method Release(store: StoreResult) returns (request: Option<SwipeRecord>, notified: bool)
      requires Valid()
      modifies this
      ensures Valid() && State() == Released(old(State()), |activities|)
      ensures var fires := old(isDragging) && !old(isAnimating)
                && ReleaseDecision(old(dragOffset).x).Some? && old(currentIndex) < |activities|;
        (fires ==> request == SwipeRequest(activities, old(currentIndex), userId, ReleaseDecision(old(dragOffset).x).value)
                   && (notified <==> request.Some? && store.Stored?))
        && (!fires ==> request.None? && !notified)
    {
      request, notified := None, false;
      if !isDragging || isAnimating {
        return;
      }
      isDragging := false;
      var decision := ReleaseDecision(dragOffset.x);
      if decision.Some? {
        request, notified := Swipe(decision.value, store);
      } else {
        dragOffset := Origin;
      }
    }

    /** The end of the exit animation, 300 ms after a swipe. */
    method AnimationFinished()
      requires Valid() && isAnimating
      modifies this
      ensures Valid() && State() == Advanced(old(State()))
    {
      currentIndex := currentIndex + 1;
      dragOffset := Origin;
      isAnimating := false;
    }

    /** `resetStack`, offered by the "all caught up" view. */
    method ResetStack()
      requires Valid()
      modifies this
      ensures Valid() && State() == Reset(old(State()))
    {
      currentIndex := 0;
      dragOffset := Origin;
      isAnimating := false;
    }
  }
}
