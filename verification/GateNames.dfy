/** The one order gates run in: sorted by name, whatever order the map is ranged over. */
module GateNames {

  /** Strictly before in the order of sort.Strings. */
  predicate Before(a: string, b: string) {
    if b == "" then false
    else if a == "" then true
    else a[0] < b[0] || (a[0] == b[0] && Before(a[1..], b[1..]))
  }

  predicate Ascending(names: seq<string>) {
    forall i, j :: 0 <= i < j < |names| ==> Before(names[i], names[j])
  }

  function Elements(names: seq<string>): set<string> {
    set i | 0 <= i < |names| :: names[i]
  }

  lemma {:induction false} BeforeIsTotal(a: string, b: string)
    ensures a != b <==> Before(a, b) || Before(b, a)
    ensures !(Before(a, b) && Before(b, a))
  {
    if a != "" && b != "" && a[0] == b[0] {
      BeforeIsTotal(a[1..], b[1..]);
      assert a == [a[0]] + a[1..] && b == [b[0]] + b[1..];
    }
  }

  lemma {:induction false} BeforeIsTransitive(a: string, b: string, c: string)
    requires Before(a, b) && Before(b, c)
    ensures Before(a, c)
  {
    if a != "" && a[0] == b[0] == c[0] {
      BeforeIsTransitive(a[1..], b[1..], c[1..]);
    }
  }

  /** Two sorted lists of the same names are the same list. */
  lemma {:induction false} SortedIsUnique(a: seq<string>, b: seq<string>)
    requires Ascending(a) && Ascending(b) && Elements(a) == Elements(b)
    ensures a == b
  {
    NoElements(a);
    NoElements(b);
    if a != [] {
      assert a[0] in Elements(a) && b[0] in Elements(b);
      HeadIsFirst(a, b);
      HeadIsFirst(b, a);
      BeforeIsTotal(a[0], b[0]);
      TailElements(a);
      TailElements(b);
      SortedIsUnique(a[1..], b[1..]);
      assert a == [a[0]] + a[1..] && b == [b[0]] + b[1..];
    }
  }

  lemma NoElements(names: seq<string>)
    ensures Elements(names) == {} <==> names == []
  {
    if names != [] {
      assert names[0] in Elements(names);
    }
  }

  lemma HeadIsFirst(a: seq<string>, b: seq<string>)
    requires Ascending(a) && a != [] && b != [] && b[0] in Elements(a)
    ensures a[0] == b[0] || Before(a[0], b[0])
  {
    var i :| 0 <= i < |a| && a[i] == b[0];
  }

  lemma TailElements(a: seq<string>)
    requires Ascending(a) && a != []
    ensures Elements(a[1..]) == Elements(a) - {a[0]}
  {
    forall x ensures x in Elements(a[1..]) <==> x in Elements(a) - {a[0]} {
      if x in Elements(a[1..]) {
        var i :| 0 <= i < |a[1..]| && a[1..][i] == x;
        assert a[i + 1] == x;
        BeforeIsTotal(a[0], x);
      }
      if x in Elements(a) - {a[0]} {
        var i :| 0 <= i < |a| && a[i] == x;
        assert a[1..][i - 1] == x;
      }
    }
  }

  /** Where a new name goes in a sorted list. */
  method Insert(names: seq<string>, name: string) returns (longer: seq<string>)
    requires Ascending(names) && name !in Elements(names)
    ensures Ascending(longer) && Elements(longer) == Elements(names) + {name}
  {
    var i := 0;
    while i < |names| && Before(names[i], name)
      invariant 0 <= i <= |names|
      invariant forall k :: 0 <= k < i ==> Before(names[k], name)
    {
      i := i + 1;
    }
    longer := names[..i] + [name] + names[i..];
    forall k | i <= k < |names| ensures Before(name, names[k]) {
      assert names[i] in Elements(names);
      BeforeIsTotal(names[i], name);
      if k > i {
        BeforeIsTransitive(name, names[i], names[k]);
      }
    }
    forall j, k | 0 <= j < k < |longer| ensures Before(longer[j], longer[k]) {
      assert longer[j] == if j < i then names[j] else if j == i then name else names[j - 1];
      assert longer[k] == if k < i then names[k] else if k == i then name else names[k - 1];
    }
    forall x ensures x in Elements(longer) <==> x in Elements(names) + {name} {
      if x in Elements(names) {
        var k :| 0 <= k < |names| && names[k] == x;
        assert longer[if k < i then k else k + 1] == x;
      }
      assert longer[i] == name;
      if x in Elements(longer) {
        var k :| 0 <= k < |longer| && longer[k] == x;
        assert x == if k < i then names[k] else if k == i then name else names[k - 1];
      }
    }
  }

  /** Every gate name once, in order; by SortedIsUnique the range order cannot show. */
  method SortedGateNames(gates: map<string, string>) returns (names: seq<string>)
    ensures Ascending(names) && Elements(names) == gates.Keys
  {
    names := [];
    var todo := gates.Keys;
    while todo != {}
      invariant Ascending(names) && todo <= gates.Keys && Elements(names) == gates.Keys - todo
      decreases |todo|
    {
      var name :| name in todo;
      names := Insert(names, name);
      todo := todo - {name};
    }
  }

  lemma {:induction false} OrderExists(names: set<string>) returns (order: seq<string>)
    ensures Ascending(order) && Elements(order) == names
    decreases |names|
  {
    if names == {} {
      order := [];
    } else {
      var last := Greatest(names);
      var before := OrderExists(names - {last});
      order := before + [last];
      forall i | 0 <= i < |before| ensures Before(before[i], last) {
        assert before[i] in Elements(before);
      }
      forall x ensures x in Elements(order) <==> x in names {
        if x in Elements(before) {
          var i :| 0 <= i < |before| && before[i] == x;
          assert order[i] == x;
        }
        assert order[|before|] == last;
      }
    }
  }

  lemma {:induction false} Greatest(names: set<string>) returns (last: string)
    requires names != {}
    ensures last in names && forall x :: x in names && x != last ==> Before(x, last)
    decreases |names|
  {
    var some :| some in names;
    var rest := names - {some};
    assert forall x :: x in names ==> x == some || x in rest;
    if rest == {} {
      last := some;
    } else {
      var g := Greatest(rest);
      BeforeIsTotal(some, g);
      last := if Before(some, g) then g else some;
      forall x | x in names && x != last ensures Before(x, last) {
        if last == some && x != g {
          BeforeIsTransitive(x, g, some);
        }
      }
    }
  }

  /** The list SortedGateNames returns. */
  ghost function GateOrder(gates: map<string, string>): (names: seq<string>)
    ensures Ascending(names) && Elements(names) == gates.Keys
  {
    assert exists names :: Ascending(names) && Elements(names) == gates.Keys by {
      var order := OrderExists(gates.Keys);
    }
    var names :| Ascending(names) && Elements(names) == gates.Keys;
    names
  }
}
