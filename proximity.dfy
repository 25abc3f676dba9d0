/**
 * The proximity effect over the dot grid: on each mouse move inside the
 * container every attached dot is pushed away from the pointer, enlarged and
 * brightened according to its distance; on mouse leave every attached dot is
 * put back in its neutral state.
 */
module Proximity {
  import opened Wrappers
  import DotGrid

  /** Distance, in pixels, beyond which the pointer has no effect. */
  const MaxDistance: real := 150.0

  /** Displacement, in pixels, of a dot under the pointer. */
  const MaxOffset: real := 30.0

  /** Visual state of one dot: translation in pixels, scale factor and opacity. */
  datatype DotState = DotState(offsetX: real, offsetY: real, scale: real, opacity: real)

  /** The state of a dot the pointer does not influence (also its initial style). */
  const Neutral: DotState := DotState(0.0, 0.0, 1.0, 0.2)

  /**
   * The geometry of one dot for one mouse event: its distance to the pointer
   * and the cosine and sine of the angle from the pointer to the dot.
   */
  datatype Sample = Sample(distance: real, cosAngle: real, sinAngle: real)

  /** Proximity of the pointer, 1 on the dot and falling linearly to 0 at `MaxDistance`. */
  function Influence(d: real): (r: real)
    requires d >= 0.0
    ensures 0.0 <= r <= 1.0
    ensures d == 0.0 ==> r == 1.0
    ensures r == 0.0 <==> d >= MaxDistance
  {
    var linear := 1.0 - d / MaxDistance;
    if 0.0 >= linear then 0.0 else linear
  }

  /** The influence never grows with the distance. */
  lemma InfluenceNonIncreasing(d1: real, d2: real)
    requires 0.0 <= d1 <= d2
    ensures Influence(d2) <= Influence(d1)
  {
  }

  /** The new state of an attached dot for one mouse event. */
  function Respond(s: Sample): (r: DotState)
    requires s.distance >= 0.0
    ensures r == Neutral <==> s.distance >= MaxDistance
    ensures s.distance < MaxDistance ==> 1.0 < r.scale <= 1.5 && 0.2 < r.opacity <= 0.8
    ensures s.distance == 0.0 ==> r.scale == 1.5 && r.opacity == 0.8
    ensures r.offsetX == s.cosAngle * Influence(s.distance) * MaxOffset
    ensures r.offsetY == s.sinAngle * Influence(s.distance) * MaxOffset
  {
    var influence := Influence(s.distance);
    if influence > 0.0 then
      DotState(s.cosAngle * influence * MaxOffset, s.sinAngle * influence * MaxOffset,
               1.0 + influence * 0.5, 0.2 + influence * 0.6)
    else
      Neutral
  }

  /** A closer pointer never makes a dot smaller or fainter. */
  lemma RespondMonotone(s1: Sample, s2: Sample)
    requires 0.0 <= s1.distance <= s2.distance
    ensures Respond(s2).scale <= Respond(s1).scale
    ensures Respond(s2).opacity <= Respond(s1).opacity
  {
  }

  /** With a unit direction, a dot moves `MaxOffset` times its influence, along that direction. */
  lemma OffsetLength(s: Sample)
    requires s.distance >= 0.0
    requires s.cosAngle * s.cosAngle + s.sinAngle * s.sinAngle == 1.0
    ensures var r := Respond(s);
      r.offsetX * r.offsetX + r.offsetY * r.offsetY
        == (Influence(s.distance) * MaxOffset) * (Influence(s.distance) * MaxOffset)
  {
  }

  /** Every sample describes a real distance. */
  predicate WellFormed(samples: seq<Sample>) {
    forall k :: 0 <= k < |samples| ==> samples[k].distance >= 0.0
  }

  /** The mouse-move update of one slot: an absent dot is skipped. */
  function MoveSlot(dot: Option<DotState>, s: Sample): Option<DotState>
    requires s.distance >= 0.0
  {
    match dot
    case None => None
    case Some(_) => Some(Respond(s))
  }

  /** The mouse-leave update of one slot: an absent dot is skipped. */
  function ResetSlot(dot: Option<DotState>): Option<DotState> {
    match dot
    case None => None
    case Some(_) => Some(Neutral)
  }

  /** All slots after a mouse move with one sample per slot. */
  function Moved(dots: seq<Option<DotState>>, samples: seq<Sample>): (r: seq<Option<DotState>>)
    requires |samples| == |dots| && WellFormed(samples)
    ensures |r| == |dots|
  {
    seq(|dots|, k requires 0 <= k < |dots| => MoveSlot(dots[k], samples[k]))
  }

  /** All slots after a mouse leave. */
  function Reset(dots: seq<Option<DotState>>): (r: seq<Option<DotState>>)
    ensures |r| == |dots|
  {
    seq(|dots|, k requires 0 <= k < |dots| => ResetSlot(dots[k]))
  }

  /** Which slots hold a dot. */
  function Present(dots: seq<Option<DotState>>): seq<bool> {
    seq(|dots|, k requires 0 <= k < |dots| => dots[k].Some?)
  }

  /** A leave makes every attached dot neutral and leaves empty slots empty. */
  lemma ResetNeutral(dots: seq<Option<DotState>>, k: int)
    requires 0 <= k < |dots|
    ensures dots[k].None? ==> Reset(dots)[k] == None
    ensures dots[k].Some? ==> Reset(dots)[k] == Some(Neutral)
  {
  }

  /** A second leave changes nothing. */
  lemma ResetIdempotent(dots: seq<Option<DotState>>)
    ensures Reset(Reset(dots)) == Reset(dots)
  {
  }

  /** Neither handler attaches or detaches a dot. */
  lemma HandlersKeepPresence(dots: seq<Option<DotState>>, samples: seq<Sample>)
    requires |samples| == |dots| && WellFormed(samples)
    ensures Present(Moved(dots, samples)) == Present(dots)
    ensures Present(Reset(dots)) == Present(dots)
  {
  }

  /** Given this event's samples, the states a mouse move gives depend only on which slots are attached. */
  lemma MoveForgetsHistory(a: seq<Option<DotState>>, b: seq<Option<DotState>>, samples: seq<Sample>)
    requires |a| == |b| == |samples| && WellFormed(samples)
    requires Present(a) == Present(b)
    ensures Moved(a, samples) == Moved(b, samples)
  {
    forall k | 0 <= k < |a|
      ensures Moved(a, samples)[k] == Moved(b, samples)[k]
    {
      assert Present(a)[k] == Present(b)[k];
    }
  }

  /** A leave after a move gives the same dots as a leave alone. */
  lemma LeaveUndoesMove(dots: seq<Option<DotState>>, samples: seq<Sample>)
    requires |samples| == |dots| && WellFormed(samples)
    ensures Reset(Moved(dots, samples)) == Reset(dots)
  {
  }

  /** A move whose pointer is out of reach of every dot is a leave. */
  lemma FarMoveIsLeave(dots: seq<Option<DotState>>, samples: seq<Sample>)
    requires |samples| == |dots| && WellFormed(samples)
    requires forall k :: 0 <= k < |samples| ==> samples[k].distance >= MaxDistance
    ensures Moved(dots, samples) == Reset(dots)
  {
  }

  /**
   * The dot elements of the page, one slot per grid index; a slot is empty
   * until the element's ref callback has run with an element.
   */
  class ProximityField {
    var dots: array<Option<DotState>>

    constructor ()
      ensures fresh(dots)
      ensures dots.Length == DotGrid.DotCount
      ensures forall k :: 0 <= k < dots.Length ==> dots[k] == None
    {
      dots := new Option<DotState>[DotGrid.DotCount](_ => None);
    }

    /** The ref callback of one dot: store the element, if there is one, at its index. */
    method AttachRef(index: nat, el: Option<DotState>)
      requires index < dots.Length
      modifies dots
      ensures dots[..] == if el.Some? then old(dots[..])[index := el] else old(dots[..])
    {
      if el.Some? {
        dots[index] := el;
      }
    }

    /** The ref callbacks of the whole grid, each dot mounted in its initial (neutral) style. */
    method Mount(layouts: seq<DotGrid.DotLayout>)
      requires layouts == DotGrid.Grid()
      requires dots.Length == DotGrid.DotCount
      modifies dots
      ensures forall k :: 0 <= k < dots.Length ==> dots[k] == Some(Neutral)
    {
      var n := 0;
      while n < |layouts|
        invariant 0 <= n <= |layouts|
        invariant forall k :: 0 <= k < n ==> dots[k] == Some(Neutral)
      {
        assert layouts[n].index == n by {
          DotGrid.SlotInGrid(n);
        }
        AttachRef(layouts[n].index, Some(Neutral));
        n := n + 1;
      }
    }

    /** The mouse-move handler, given each slot's geometry for this event. */
    method HandleMouseMove(samples: seq<Sample>)
      requires |samples| == dots.Length && WellFormed(samples)
      modifies dots
      ensures dots[..] == Moved(old(dots[..]), samples)
    {
      var k := 0;
      while k < dots.Length
        invariant 0 <= k <= dots.Length
        invariant forall m :: 0 <= m < k ==> dots[m] == MoveSlot(old(dots[m]), samples[m])
        invariant forall m :: k <= m < dots.Length ==> dots[m] == old(dots[m])
      {
        var dot := dots[k];
        if dot.Some? {
          var influence := Influence(samples[k].distance);
          if influence > 0.0 {
            var moveX := samples[k].cosAngle * influence * MaxOffset;
            var moveY := samples[k].sinAngle * influence * MaxOffset;
            dots[k] := Some(DotState(moveX, moveY, 1.0 + influence * 0.5, 0.2 + influence * 0.6));
            assert Respond(samples[k]).scale == 1.0 + influence * 0.5;
            assert Respond(samples[k]).offsetX == moveX;
            assert Respond(samples[k]).offsetY == moveY;
            assert Respond(samples[k]).opacity == 0.2 + influence * 0.6;
          } else {
            dots[k] := Some(DotState(0.0, 0.0, 1.0, 0.2));
          }
        }
        assert dots[k] == MoveSlot(old(dots[k]), samples[k]);
        k := k + 1;
      }
    }

    /** The mouse-leave handler. */
    method HandleMouseLeave()
      modifies dots
      ensures dots[..] == Reset(old(dots[..]))
    {
      var k := 0;
      while k < dots.Length
        invariant 0 <= k <= dots.Length
        invariant forall m :: 0 <= m < k ==> dots[m] == ResetSlot(old(dots[m]))
        invariant forall m :: k <= m < dots.Length ==> dots[m] == old(dots[m])
      {
        if dots[k].Some? {
          dots[k] := Some(DotState(0.0, 0.0, 1.0, 0.2));
        }
        k := k + 1;
      }
    }
  }
}
