/** Values that may be absent, and keys that are still free. */
module Wrappers {
  datatype Option<+T> = None | Some(value: T)

  /** A number above all of these. */
  lemma {:induction false} NumberAbove(ids: set<nat>) returns (id: nat)
    ensures forall n :: n in ids ==> n < id
    decreases |ids|
  {
    if ids == {} {
      id := 0;
    } else {
      var some :| some in ids;
      var rest := NumberAbove(ids - {some});
      id := if rest <= some then some + 1 else rest;
      assert forall n :: n in ids ==> n == some || n in ids - {some};
    }
  }

  /** A key the map does not hold. */
  lemma Spare<T>(m: map<nat, T>) returns (id: nat)
    ensures id !in m
  {
    id := NumberAbove(m.Keys);
  }
}
