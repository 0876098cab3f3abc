/** `IoWaiters`: the two waker slots that the halves of one stream share. */
module Waiters {
  import opened Basics

  /** A waker is the task it wakes; `will_wake` is equality. */
  type Waker = nat

  /** Registering leaves an equivalent waker in place and replaces any other. */
  function RegisterSlot(slot: Option<Waker>, w: Waker): (r: Option<Waker>)
    ensures r == Some(w)
  {
    if slot == Some(w) then slot else Some(w)
  }

  /** The writer's slot and the reader's. */
  type Slots = s: seq<Option<Waker>> | |s| == 2 witness [None, None]

  const NOBODY: Slots := [None, None]

  function SlotOf(reader: bool): nat {
    if reader then 1 else 0
  }

  /** The occupied slots, in slot order. */
  function Occupied(slots: seq<Option<Waker>>): seq<Waker> {
    if slots == [] then []
    else (if slots[0].Some? then [slots[0].value] else []) + Occupied(slots[1..])
  }

  /** Every occupant of these slots is among the woken. */
  ghost predicate AllIn(slots: Slots, woken: seq<Waker>) {
    forall i | 0 <= i < 2 && slots[i].Some? :: slots[i].value in woken
  }

  /** Whoever is in a slot is among the occupants. */
  lemma OccupantsAreIn(slots: Slots, i: nat)
    requires i < 2 && slots[i].Some?
    ensures slots[i].value in Occupied(slots)
  {
    assert slots == [slots[0], slots[1]] && slots[1..] == [slots[1]];
  }

  class IoWaiters {
    var slots: Slots
    /** Every waker woken so far, in order. */
    ghost var woken: seq<Waker>

    constructor ()
      ensures slots == NOBODY && woken == []
    {
      slots := NOBODY;
      woken := [];
    }

    method Register(reader: bool, w: Waker)
      modifies this
      ensures slots == old(slots)[SlotOf(reader) := Some(w)]
      ensures woken == old(woken)
    {
      var i := SlotOf(reader);
      if slots[i] != Some(w) {
        slots := slots[i := Some(w)];
      }
    }

    method Wake(w: Waker)
      modifies this
      ensures slots == old(slots) && woken == old(woken) + [w]
    {
      woken := woken + [w];
    }

    /** Takes both slots first, then wakes each waker that was in them exactly once. */
    method Notify()
      modifies this
      ensures slots == NOBODY
      ensures woken == old(woken) + Occupied(old(slots))
      ensures AllIn(old(slots), woken[|old(woken)|..])
    {
      assert slots == [slots[0], slots[1]] && slots[1..] == [slots[1]];
      var taken := slots;
      slots := NOBODY;
      var i := 0;
      while i < |taken|
        invariant 0 <= i <= |taken|
        invariant slots == NOBODY
        invariant woken + Occupied(taken[i..]) == old(woken) + Occupied(taken)
      {
        if taken[i].Some? {
          Wake(taken[i].value);
        }
        i := i + 1;
      }
    }
  }
}
