/** Tables keyed by (process lifetime, descriptor), and how a fork copies the parent's entries. */
module Descriptors {
  import opened Trace

  /** An open descriptor of a process lifetime. */
  type Slot = (Lifetime, int)

  /** Does `child` receive a copy of the parent's entry for this slot's descriptor? */
  predicate Inherits<T>(pending: map<Slot, T>, parent: Lifetime, child: Lifetime, slot: Slot)
  {
    slot.0 == child && (parent, slot.1) in pending
  }

  /** The pending entries after `child` received a copy of every entry of `parent`. */
  function Inherit<T>(pending: map<Slot, T>, parent: Lifetime, child: Lifetime): (r: map<Slot, T>)
    ensures forall slot :: slot in r <==> slot in pending || Inherits(pending, parent, child, slot)
  {
    var copies := set slot | slot in pending && slot.0 == parent :: (child, slot.1);
    assert forall slot :: Inherits(pending, parent, child, slot) ==> (parent, slot.1) in pending && slot in copies;
    map slot | slot in pending.Keys + copies ::
      if Inherits(pending, parent, child, slot) then pending[(parent, slot.1)] else pending[slot]
  }

  /** The copying loop of a fork; the hash map yields the parent's entries in any order. */
  method InheritWrites<T>(pending: map<Slot, T>, parent: Lifetime, child: Lifetime) returns (result: map<Slot, T>)
    ensures result == Inherit(pending, parent, child)
  {
    var rest := set slot | slot in pending && slot.0 == parent;
    result := pending;
    while rest != {}
      invariant forall slot :: slot in rest ==> slot in pending && slot.0 == parent
      invariant forall slot :: slot in result <==>
        slot in pending || (Inherits(pending, parent, child, slot) && (parent, slot.1) !in rest)
      invariant forall slot :: slot in result ==>
        (result[slot] == if Inherits(pending, parent, child, slot) && (parent, slot.1) !in rest
                         then pending[(parent, slot.1)] else pending[slot])
      decreases rest
    {
      var slot :| slot in rest;
      result := result[(child, slot.1) := pending[slot]];
      rest := rest - {slot};
    }
  }
}
