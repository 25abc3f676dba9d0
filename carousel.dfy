/**
 * The project carousel of the portfolio page: the index of the first project
 * card shown, moved two cards at a time by the left and right arrow buttons.
 */
module Carousel {

  /** Number of entries in the page's `projects` list. */
  const ProjectCount: int := 6

  /** The index the page starts with. */
  const InitialIndex: int := 0

  /** The indices the carousel can show: in range and at a page boundary (two cards per page). */
  predicate ValidIndex(index: int) {
    0 <= index < ProjectCount && index % 2 == 0
  }

  /** Index after one call of the scroll handler: move by two cards per unit of direction, if the target is a project. */
  function Step(index: int, direction: int): int {
    var target := index + direction * 2;
    if 0 <= target < ProjectCount then target else index
  }

  /** The left arrow's `disabled` attribute. */
  predicate LeftDisabled(index: int) {
    index == 0
  }

  /** The right arrow's `disabled` attribute. */
  predicate RightDisabled(index: int) {
    index >= ProjectCount - 2
  }

  /** Magnitude, in percent, of the `translateX` applied to the row of cards. */
  function Offset(index: int): (r: real)
    ensures index % 2 == 0 ==> r == ((index / 2) * 100) as real
  {
    (index as real / 2.0) * 100.0
  }

  /** Index reached from `start` after a sequence of arrow clicks, each a direction. */
  function Run(start: int, clicks: seq<int>): int
    decreases |clicks|
  {
    if clicks == [] then start else Run(Step(start, clicks[0]), clicks[1..])
  }

  /** `n` clicks on the right arrow. */
  function RightClicks(n: nat): seq<int> {
    seq(n, _ => 1)
  }

  /** A scroll either moves exactly two cards per unit of direction, when that stays a project, or does nothing. */
  lemma StepMovesWithinBounds(index: int, direction: int)
    ensures Step(index, direction) == index + 2 * direction <==> (0 <= index + 2 * direction < ProjectCount || direction == 0)
    ensures Step(index, direction) != index + 2 * direction ==> Step(index, direction) == index
  {
  }

  /** One scroll keeps the index valid, whatever the direction. */
  lemma StepKeepsValid(index: int, direction: int)
    requires ValidIndex(index)
    ensures ValidIndex(Step(index, direction))
  {
  }

  /** Any sequence of scrolls from a valid index ends at a valid index. */
  lemma {:induction false} RunKeepsValid(start: int, clicks: seq<int>)
    requires ValidIndex(start)
    ensures ValidIndex(Run(start, clicks))
    decreases |clicks|
  {
    if clicks != [] {
      StepKeepsValid(start, clicks[0]);
      RunKeepsValid(Step(start, clicks[0]), clicks[1..]);
    }
  }

  /** Every index reachable from the initial index by clicks is valid. */
  lemma ReachableIsValid(clicks: seq<int>)
    ensures ValidIndex(Run(InitialIndex, clicks))
  {
    RunKeepsValid(InitialIndex, clicks);
  }

  /** `n` right clicks advance the index by `2 * n` when the last target is still a project. */
  lemma {:induction false} RightClicksAdvance(start: int, n: nat)
    requires 0 <= start && start + 2 * n < ProjectCount
    ensures Run(start, RightClicks(n)) == start + 2 * n
    decreases n
  {
    if n > 0 {
      var clicks := RightClicks(n);
      assert clicks[1..] == RightClicks(n - 1);
      assert Step(start, 1) == start + 2;
      RightClicksAdvance(start + 2, n - 1);
    }
  }

  /** Every valid index is reachable from the initial index by right clicks alone. */
  lemma ValidIsReachable(index: int)
    requires ValidIndex(index)
    ensures Run(InitialIndex, RightClicks(index / 2)) == index
  {
    RightClicksAdvance(InitialIndex, index / 2);
  }

  /** The left arrow is disabled exactly when a left click would be refused; otherwise it goes back one page. */
  lemma LeftArrowMatchesGuard(index: int)
    requires ValidIndex(index)
    ensures LeftDisabled(index) <==> Step(index, -1) == index
    ensures !LeftDisabled(index) ==> Step(index, -1) == index - 2
  {
  }

  /** The right arrow is disabled exactly when a right click would be refused; otherwise it goes forward one page. */
  lemma RightArrowMatchesGuard(index: int)
    requires ValidIndex(index)
    ensures RightDisabled(index) <==> Step(index, 1) == index
    ensures !RightDisabled(index) ==> Step(index, 1) == index + 2
  {
  }

  /** The translation grows with the index. */
  lemma OffsetMonotone(i: int, j: int)
    requires i <= j
    ensures Offset(i) <= Offset(j)
  {
  }

  /** On a valid index the translation is one of the three page positions. */
  lemma ValidOffsets(index: int)
    requires ValidIndex(index)
    ensures Offset(index) == 0.0 || Offset(index) == 100.0 || Offset(index) == 200.0
    ensures Offset(index) == 0.0 <==> LeftDisabled(index)
    ensures Offset(index) == 200.0 <==> RightDisabled(index)
  {
  }

  /** The carousel state of the page component. */
  class CarouselState {
    var index: int

    ghost predicate Valid()
      reads this
    {
      ValidIndex(index)
    }

    constructor ()
      ensures Valid() && index == InitialIndex
    {
      index := InitialIndex;
    }

    /** The scroll handler: apply the move only if it lands on a project. */
    method Scroll(direction: int)
      requires Valid()
      modifies this
      ensures Valid()
      ensures index == Step(old(index), direction)
    {
      var newIndex := index + direction * 2;
      if newIndex >= 0 && newIndex < ProjectCount {
        index := newIndex;
      }
    }
  }
}
