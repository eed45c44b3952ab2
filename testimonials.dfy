/**
 * The testimonial carousel of components/Testimonials.tsx: one testimonial is
 * shown at a time, with arrows that step forwards and backwards cyclically and
 * one dot per testimonial that jumps to it.
 */
module Testimonials {

  /** A testimonial as the carousel lists it (its quote text is not carried here). */
  datatype Testimonial = Testimonial(id: nat, author: string, position: string)

  const Items: seq<Testimonial> := [
    Testimonial(1, "Sarah Johnson", "CTO, TechInnovate"),
    Testimonial(2, "Michael Chen", "Founder, DeFi Solutions"),
    Testimonial(3, "Emily Rodriguez", "Product Manager, AI Innovations")
  ]

  /**
   * The remainder of JavaScript's `%`, which truncates toward zero: its sign
   * follows the dividend.
   */
  function JsRem(a: int, n: int): (r: int)
    requires n > 0
    ensures a >= 0 ==> 0 <= r < n && r == a % n
    ensures a < 0 ==> -n < r <= 0 && a == r - n * ((-a) / n)
  {
    if a >= 0 then a % n else -((-a) % n)
  }

  /** The index the right arrow moves to. */
  function Next(current: int): (r: int)
    ensures 0 <= current ==> 0 <= r < |Items|
    ensures 0 <= current < |Items| - 1 ==> r == current + 1
    ensures current == |Items| - 1 ==> r == 0
  {
    JsRem(current + 1, |Items|)
  }

  /** The index the left arrow moves to. */
  function Prev(current: int): (r: int)
    ensures 0 <= current ==> 0 <= r < |Items|
    ensures 0 < current < |Items| ==> r == current - 1
    ensures current == 0 ==> r == |Items| - 1
  {
    JsRem(current - 1 + |Items|, |Items|)
  }

  /** The arrows undo each other on every index the carousel can show. */
  lemma NextPrevInverse(current: int)
    requires 0 <= current < |Items|
    ensures Prev(Next(current)) == current
    ensures Next(Prev(current)) == current
  {
  }

  /** Three steps forward come back to the same testimonial. */
  lemma NextCycles(current: int)
    requires 0 <= current < |Items|
    ensures Next(Next(Next(current))) == current
  {
  }

  /** Which dots are marked active: the one whose index is `current`. */
  function ActiveDots(current: int): (dots: seq<bool>)
    ensures |dots| == |Items|
    ensures 0 <= current < |Items| ==> dots[current]
    ensures forall i :: 0 <= i < |dots| && dots[i] ==> i == current
  {
    seq(|Items|, idx => idx == current)
  }

  /** The carousel's state. */
  class Carousel {
    var current: int

    ghost predicate Valid()
      reads this
    {
      0 <= current < |Items|
    }

    /** The testimonial on display. */
    function Shown(): (t: Testimonial)
      requires Valid()
      reads this
      ensures t in Items
    {
      Items[current]
    }

    constructor ()
      ensures Valid() && current == 0
    {
      current := 0;
    }

    method GoNext()
      requires Valid()
      modifies this
      ensures Valid() && current == Next(old(current))
    {
      current := (current + 1) % |Items|;
    }

    method GoPrev()
      requires Valid()
      modifies this
      ensures Valid() && current == Prev(old(current))
    {
      current := (current - 1 + |Items|) % |Items|;
    }

    /** A click on dot `idx`. */
    method GoTo(idx: int)
      requires 0 <= idx < |Items|
      modifies this
      ensures Valid() && current == idx
    {
      current := idx;
    }
  }
}
