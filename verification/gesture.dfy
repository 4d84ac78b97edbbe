/** The horizontal drag classifiers: the swipe page's `handleDragEnd` and the
    reusable `SwipeCard`'s `onDragEnd`. Both turn the drag offset at release
    into at most one decision using a strict ±100 pixel threshold. */
module Gesture {
  import opened Optional

  /** The decisions the swipe page handles: `'left' | 'right' | 'super'`. */
  datatype Direction = Left | Right | Super

  /** The decisions `SwipeCard` reports through `onSwipe`: `'left' | 'right'`. */
  datatype CardDirection = CardLeft | CardRight

  /** Offsets strictly beyond this distance from the origin are decisions. */
  const Threshold: real := 100.0

  /** A release offset that yields no decision: the card snaps back. */
  predicate InDeadZone(offsetX: real)
  {
    -Threshold <= offsetX <= Threshold
  }

  /** The swipe page's `handleDragEnd`: which direction, if any, it hands to
      `handleSwipe`. A drag never produces `Super`. */
  function ClassifyDrag(offsetX: real): (r: Option<Direction>)
    ensures r == Some(Right) <==> offsetX > Threshold
    ensures r == Some(Left) <==> offsetX < -Threshold
    ensures r == None <==> InDeadZone(offsetX)
    ensures r != Some(Super)
  {
    if offsetX > Threshold then Some(Right)
    else if offsetX < -Threshold then Some(Left)
    else None
  }

  /** `SwipeCard`'s `onDragEnd`: the sequence of `onSwipe` calls one release
      makes. */
  function CardDragEnd(offsetX: real): (calls: seq<CardDirection>)
    ensures |calls| <= 1
    ensures calls == [CardRight] <==> offsetX > Threshold
    ensures calls == [CardLeft] <==> offsetX < -Threshold
    ensures calls == [] <==> InDeadZone(offsetX)
  {
    if offsetX > Threshold then [CardRight]
    else if offsetX < -Threshold then [CardLeft]
    else []
  }

  /** A card decision read as a decision of the swipe page. */
  function Widen(d: CardDirection): (r: Direction)
    ensures r != Super
  {
    match d
    case CardLeft => Left
    case CardRight => Right
  }

  /** Both classifiers decide the same way on every offset: the card calls
      `onSwipe` exactly when the page would call `handleSwipe`, and with the
      same direction. */
  lemma CardAgreesWithPage(offsetX: real)
    ensures CardDragEnd(offsetX) == [] <==> ClassifyDrag(offsetX) == None
    ensures forall i :: 0 <= i < |CardDragEnd(offsetX)| ==>
              ClassifyDrag(offsetX) == Some(Widen(CardDragEnd(offsetX)[i]))
  {
  }

  /** One release never reports both directions. */
  lemma CardNeverBothDirections(offsetX: real)
    ensures !(CardLeft in CardDragEnd(offsetX) && CardRight in CardDragEnd(offsetX))
  {
  }
}
