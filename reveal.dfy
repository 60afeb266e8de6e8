/** The scroll-reveal observer: each animated element is observed until its
    first intersection, gets the class `in-view` then, and is unobserved so
    that it is never revealed again. Elements are numbered. */
module Reveal {

  type Element = nat

  /** An observer entry: its target and whether it is intersecting. */
  datatype Entry = Entry(target: Element, isIntersecting: bool)

  /** The targets of the intersecting entries of a batch. */
  function Intersecting(entries: seq<Entry>): set<Element> {
    set i | 0 <= i < |entries| && entries[i].isIntersecting :: entries[i].target
  }

  class RevealObserver {
    /** The elements that carry `animate-on-scroll`. */
    var animated: set<Element>
    /** The elements the observer still watches. */
    var observed: set<Element>
    /** The elements that carry `in-view`. */
    var inView: set<Element>

    /** Every animated element is either still watched or already revealed,
        never both. */
    ghost predicate Valid()
      reads this
    {
      observed + inView == animated && observed !! inView
    }

    /** Mark every candidate element and start observing it. */
    constructor (elements: set<Element>)
      ensures Valid() && animated == elements && observed == elements && inView == {}
    {
      animated := elements;
      observed := elements;
      inView := {};
    }

    /** The observer callback. The browser delivers entries only for elements
        observed when the batch was taken. */
    method OnIntersection(entries: seq<Entry>)
      requires Valid()
      requires forall i :: 0 <= i < |entries| ==> entries[i].target in observed
      modifies this
      ensures Valid() && animated == old(animated)
      ensures inView == old(inView) + Intersecting(entries)
      ensures observed == old(observed) - Intersecting(entries)
      ensures Intersecting(entries) !! observed
    {
      var i := 0;
      while i < |entries|
        invariant 0 <= i <= |entries|
        invariant animated == old(animated)
        invariant inView == old(inView) + Intersecting(entries[..i])
        invariant observed == old(observed) - Intersecting(entries[..i])
      {
        var entry := entries[i];
        if entry.isIntersecting {
          inView := inView + {entry.target};
          observed := observed - {entry.target};
        }
        assert Intersecting(entries[..i + 1]) == Intersecting(entries[..i]) +
          (if entry.isIntersecting then {entry.target} else {}) by {
          assert forall k :: 0 <= k < i ==> entries[..i + 1][k] == entries[..i][k];
        }
        i := i + 1;
      }
      assert entries[..i] == entries;
    }
  }
}
