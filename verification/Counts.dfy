/** Maps of counters, where a key that is absent counts zero. */
module Counts {

  type Counters = map<string, nat>

  function Get(m: Counters, key: string): nat {
    if key in m then m[key] else 0
  }

  function Bump(m: Counters, key: string): Counters {
    m[key := Get(m, key) + 1]
  }

  /** The sum of all counters. */
  ghost function Total(m: Counters): nat {
    if m == map[] then 0
    else
      var key :| key in m;
      m[key] + Total(m - {key})
  }

  /** The sum does not depend on which counter is taken first. */
  lemma {:induction false} TotalFrom(m: Counters, key: string)
    requires key in m
    ensures Total(m) == m[key] + Total(m - {key})
    decreases |m|
  {
    var first :| first in m && Total(m) == m[first] + Total(m - {first});
    if first != key {
      TotalFrom(m - {first}, key);
      TotalFrom(m - {key}, first);
      assert m - {first} - {key} == m - {key} - {first};
    }
  }

  lemma TotalOfBump(m: Counters, key: string)
    ensures Total(Bump(m, key)) == Total(m) + 1
  {
    var m' := Bump(m, key);
    TotalFrom(m', key);
    if key in m {
      TotalFrom(m, key);
      assert m' - {key} == m - {key};
    } else {
      assert m' - {key} == m;
    }
  }

  /** Adds every counter of one map into another. */
  method AddCounts(into: Counters, from: Counters) returns (sum: Counters)
    ensures forall key :: Get(sum, key) == Get(into, key) + Get(from, key)
  {
    sum := into;
    var todo := from.Keys;
    while todo != {}
      invariant todo <= from.Keys
      invariant forall key :: Get(sum, key) == Get(into, key) + if key in todo then 0 else Get(from, key)
      decreases |todo|
    {
      var key :| key in todo;
      sum := sum[key := Get(sum, key) + from[key]];
      todo := todo - {key};
    }
  }
}
