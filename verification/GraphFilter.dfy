/** Filtering a merged graph: whole elements are kept or dropped by their source file, and
    links and hyperedges go with the endpoints they lose. What is kept is written through the
    JSON encoder, which may spell a value differently but parses to the same one. */
module GraphFilter {
  import opened Wrappers
  import opened Glob

  datatype Node = Node(id: string, file: string)

  datatype Link = Link(source: string, target: string, file: string)

  datatype Hyperedge = Hyperedge(nodes: seq<string>, file: string)

  /** The bytes of an element and what they parse to; one that does not parse fails the filter. */
  datatype Element<T> = Parsed(bytes: string, value: T) | Malformed(bytes: string)

  /** One of the three arrays of the document. */
  datatype Arr<T> = Absent | Null | NotArray | Array(items: seq<Element<T>>)

  datatype Graph = Graph(nodes: Arr<Node>, links: Arr<Link>, hyperedges: Arr<Hyperedge>, rest: map<string, string>)

  function Items<T>(a: Arr<T>): seq<Element<T>> {
    if a.Array? then a.items else []
  }

  predicate Parses<T>(items: seq<Element<T>>) {
    forall i :: 0 <= i < |items| ==> items[i].Parsed?
  }

  predicate Readable<T>(a: Arr<T>) {
    !a.NotArray? && Parses(Items(a))
  }

  predicate AllReadable(g: Graph) {
    Readable(g.nodes) && Readable(g.links) && Readable(g.hyperedges)
  }

  /** An absent array stays absent; a null one becomes an empty one. */
  function Encoded<T>(a: Arr<T>, kept: seq<Element<T>>): Arr<T> {
    if a.Absent? then a else Array(kept)
  }

  // ---- what is kept

  function Kept<T>(items: seq<Element<T>>, keep: T -> bool): seq<Element<T>> {
    if items == [] then []
    else
      var last := items[|items| - 1];
      Kept(items[..|items| - 1], keep) + if last.Parsed? && keep(last.value) then [last] else []
  }

  function IDs(items: seq<Element<Node>>): set<string> {
    set i | 0 <= i < |items| && items[i].Parsed? :: items[i].value.id
  }

  function Remaining(nodes: seq<string>, ids: set<string>): nat {
    if nodes == [] then 0
    else Remaining(nodes[..|nodes| - 1], ids) + if nodes[|nodes| - 1] in ids then 1 else 0
  }

  function KeepsNode(ps: seq<string>, seg: SegMatch): Node -> bool {
    (n: Node) => !MatchesAny(ps, n.file, seg)
  }

  function KeepsLink(ids: set<string>, ps: seq<string>, seg: SegMatch): Link -> bool {
    (l: Link) => !MatchesAny(ps, l.file, seg) && l.source in ids && l.target in ids
  }

  function KeepsHyperedge(ids: set<string>, ps: seq<string>, seg: SegMatch): Hyperedge -> bool {
    (h: Hyperedge) => !MatchesAny(ps, h.file, seg) && Remaining(h.nodes, ids) >= 2
  }

  /** The ids that survive the patterns. */
  function Survivors(g: Graph, ps: seq<string>, seg: SegMatch): set<string> {
    IDs(Kept(Items(g.nodes), KeepsNode(ps, seg)))
  }

  /** The document with what is kept, in the bytes it came with. */
  function Sifted(g: Graph, ps: seq<string>, seg: SegMatch): Graph {
    var ids := Survivors(g, ps, seg);
    Graph(Encoded(g.nodes, Kept(Items(g.nodes), KeepsNode(ps, seg))),
          Encoded(g.links, Kept(Items(g.links), KeepsLink(ids, ps, seg))),
          Encoded(g.hyperedges, Kept(Items(g.hyperedges), KeepsHyperedge(ids, ps, seg))), g.rest)
  }

  // ---- writing it

  /** How the encoder spells a raw piece of a document. */
  type Encoder = string -> string

  /** Writing what was written changes nothing more. */
  ghost predicate Stable(enc: Encoder) {
    forall b :: enc(enc(b)) == enc(b)
  }

  function Recoded<T>(items: seq<Element<T>>, enc: Encoder): (r: seq<Element<T>>)
    ensures |r| == |items|
    ensures forall i :: 0 <= i < |items| ==> r[i] == items[i].(bytes := enc(items[i].bytes))
  {
    seq(|items|, i requires 0 <= i < |items| => items[i].(bytes := enc(items[i].bytes)))
  }

  function RecodedArr<T>(a: Arr<T>, enc: Encoder): Arr<T> {
    if a.Array? then Array(Recoded(a.items, enc)) else a
  }

  function Marshalled(g: Graph, enc: Encoder): Graph {
    Graph(RecodedArr(g.nodes, enc), RecodedArr(g.links, enc), RecodedArr(g.hyperedges, enc),
          map key | key in g.rest :: enc(g.rest[key]))
  }

  function Filtered(g: Graph, ps: seq<string>, seg: SegMatch, enc: Encoder): Graph {
    Marshalled(Sifted(g, ps, seg), enc)
  }

  /** A document that cannot be read is left as it is. */
  function FilterGraph(g: Graph, ps: seq<string>, seg: SegMatch, enc: Encoder): Option<Graph> {
    if AllReadable(g) then Some(Filtered(g, ps, seg, enc)) else None
  }

  lemma RecodedTwice<T>(a: Arr<T>, enc: Encoder)
    requires Stable(enc)
    ensures RecodedArr(RecodedArr(a, enc), enc) == RecodedArr(a, enc)
  {
    if a.Array? {
      assert Recoded(Recoded(a.items, enc), enc) == Recoded(a.items, enc);
    }
  }

  lemma MarshalledTwice(g: Graph, enc: Encoder)
    requires Stable(enc)
    ensures Marshalled(Marshalled(g, enc), enc) == Marshalled(g, enc)
  {
    RecodedTwice(g.nodes, enc);
    RecodedTwice(g.links, enc);
    RecodedTwice(g.hyperedges, enc);
    var once, twice := Marshalled(g, enc).rest, Marshalled(Marshalled(g, enc), enc).rest;
    assert once.Keys == twice.Keys;
    assert forall key :: key in once ==> once[key] == twice[key];
  }

  // ---- the loops

  lemma IDsGrow(kept: seq<Element<Node>>, e: Element<Node>)
    requires e.Parsed?
    ensures IDs(kept + [e]) == IDs(kept) + {e.value.id}
  {
    var more := kept + [e];
    forall id ensures id in IDs(more) <==> id in IDs(kept) + {e.value.id} {
      if id in IDs(kept) {
        var i :| 0 <= i < |kept| && kept[i].Parsed? && kept[i].value.id == id;
        assert more[i].value.id == id;
      }
      assert more[|kept|].value.id == e.value.id;
    }
  }

  method KeepNodes(items: seq<Element<Node>>, ps: seq<string>, seg: SegMatch)
    returns (ok: bool, kept: seq<Element<Node>>, ids: set<string>)
    ensures ok == Parses(items)
    ensures ok ==> kept == Kept(items, KeepsNode(ps, seg)) && ids == IDs(kept)
  {
    kept, ids := [], {};
    assert items[..|items|] == items;
    for i := 0 to |items|
      invariant Parses(items[..i]) && kept == Kept(items[..i], KeepsNode(ps, seg)) && ids == IDs(kept)
    {
      assert items[..i + 1][..i] == items[..i];
      if items[i].Malformed? {
        return false, [], {};
      }
      var found := FindMatch(ps, items[i].value.file, seg);
      if found {
        assert kept + [] == kept;
        continue;
      }
      IDsGrow(kept, items[i]);
      kept := kept + [items[i]];
      ids := ids + {items[i].value.id};
    }
    ok := true;
  }

  method KeepLinks(items: seq<Element<Link>>, ids: set<string>, ps: seq<string>, seg: SegMatch)
    returns (ok: bool, kept: seq<Element<Link>>)
    ensures ok == Parses(items)
    ensures ok ==> kept == Kept(items, KeepsLink(ids, ps, seg))
  {
    kept := [];
    assert items[..|items|] == items;
    for i := 0 to |items|
      invariant Parses(items[..i]) && kept == Kept(items[..i], KeepsLink(ids, ps, seg))
    {
      assert items[..i + 1][..i] == items[..i];
      assert kept + [] == kept;
      if items[i].Malformed? {
        return false, [];
      }
      var found := FindMatch(ps, items[i].value.file, seg);
      if found {
        continue;
      }
      if items[i].value.source !in ids || items[i].value.target !in ids {
        continue;
      }
      kept := kept + [items[i]];
    }
    ok := true;
  }

  method CountRemaining(nodes: seq<string>, ids: set<string>) returns (remaining: nat)
    ensures remaining == Remaining(nodes, ids)
  {
    remaining := 0;
    assert nodes[..|nodes|] == nodes;
    for i := 0 to |nodes|
      invariant remaining == Remaining(nodes[..i], ids)
    {
      assert nodes[..i + 1][..i] == nodes[..i];
      if nodes[i] in ids {
        remaining := remaining + 1;
      }
    }
  }

  method KeepHyperedges(items: seq<Element<Hyperedge>>, ids: set<string>, ps: seq<string>, seg: SegMatch)
    returns (ok: bool, kept: seq<Element<Hyperedge>>)
    ensures ok == Parses(items)
    ensures ok ==> kept == Kept(items, KeepsHyperedge(ids, ps, seg))
  {
    kept := [];
    assert items[..|items|] == items;
    for i := 0 to |items|
      invariant Parses(items[..i]) && kept == Kept(items[..i], KeepsHyperedge(ids, ps, seg))
    {
      assert items[..i + 1][..i] == items[..i];
      assert kept + [] == kept;
      if items[i].Malformed? {
        return false, [];
      }
      var found := FindMatch(ps, items[i].value.file, seg);
      if found {
        continue;
      }
      var remaining := CountRemaining(items[i].value.nodes, ids);
      if remaining < 2 {
        continue;
      }
      kept := kept + [items[i]];
    }
    ok := true;
  }

  /** Writes an array back in its own encoding; the document is then encoded as a whole. */
  function EncodeRawArray<T>(a: Arr<T>, kept: seq<Element<T>>, enc: Encoder): Arr<T> {
    if a.Absent? then a else Array(Recoded(kept, enc))
  }

  /** The arrays go through the encoder twice, which comes to once. */
  lemma ArraysTwice(g: Graph, enc: Encoder)
    requires Stable(enc)
    ensures var arrays := Graph(RecodedArr(g.nodes, enc), RecodedArr(g.links, enc), RecodedArr(g.hyperedges, enc), g.rest);
      Marshalled(arrays, enc) == Marshalled(g, enc)
  {
    RecodedTwice(g.nodes, enc);
    RecodedTwice(g.links, enc);
    RecodedTwice(g.hyperedges, enc);
  }

  method FilterGraphFile(g: Graph, ps: seq<string>, seg: SegMatch, enc: Encoder) returns (result: Option<Graph>)
    requires Stable(enc)
    ensures result == FilterGraph(g, ps, seg, enc)
  {
    if g.nodes.NotArray? || g.links.NotArray? || g.hyperedges.NotArray? {
      return None;
    }
    var okNodes, nodes, ids := KeepNodes(Items(g.nodes), ps, seg);
    if !okNodes {
      return None;
    }
    var okLinks, links := KeepLinks(Items(g.links), ids, ps, seg);
    if !okLinks {
      return None;
    }
    var okHyperedges, hyperedges := KeepHyperedges(Items(g.hyperedges), ids, ps, seg);
    if !okHyperedges {
      return None;
    }
    var doc := Graph(EncodeRawArray(g.nodes, nodes, enc), EncodeRawArray(g.links, links, enc),
                     EncodeRawArray(g.hyperedges, hyperedges, enc), g.rest);
    ArraysTwice(Sifted(g, ps, seg), enc);
    return Some(Marshalled(doc, enc));
  }

  // ---- keeping elements in general

  predicate Subsequence<T(==)>(a: seq<T>, b: seq<T>) {
    if a == [] then true
    else if b == [] then false
    else if a[|a| - 1] == b[|b| - 1] then Subsequence(a[..|a| - 1], b[..|b| - 1])
    else Subsequence(a, b[..|b| - 1])
  }

  lemma {:induction false} SubsequenceSkips<T>(a: seq<T>, b: seq<T>, e: T)
    requires Subsequence(a, b)
    ensures Subsequence(a, b + [e])
    decreases |b|, 1
  {
    assert (b + [e])[..|b|] == b;
    if a != [] && a[|a| - 1] == e {
      DropLastFits(a, b);
    }
  }

  lemma {:induction false} DropLastFits<T>(a: seq<T>, b: seq<T>)
    requires a != [] && Subsequence(a, b)
    ensures Subsequence(a[..|a| - 1], b)
    decreases |b|, 0
  {
    var a', b' := a[..|a| - 1], b[..|b| - 1];
    assert b' + [b[|b| - 1]] == b;
    if a[|a| - 1] == b[|b| - 1] {
      SubsequenceSkips(a', b', b[|b| - 1]);
    } else {
      DropLastFits(a, b');
      SubsequenceSkips(a', b', b[|b| - 1]);
    }
  }

  lemma {:induction false} KeptInOrder<T>(items: seq<Element<T>>, keep: T -> bool)
    ensures Subsequence(Kept(items, keep), items)
  {
    if items != [] {
      var before, last := items[..|items| - 1], items[|items| - 1];
      var kept := Kept(before, keep);
      KeptInOrder(before, keep);
      assert items == before + [last];
      if last.Parsed? && keep(last.value) {
        assert (kept + [last])[..|kept|] == kept;
      } else {
        SubsequenceSkips(kept, before, last);
        assert kept + [] == kept;
      }
    }
  }

  lemma {:induction false} KeptMembers<T>(items: seq<Element<T>>, keep: T -> bool)
    ensures forall e :: e in Kept(items, keep) <==> e in items && e.Parsed? && keep(e.value)
  {
    if items != [] {
      KeptMembers(items[..|items| - 1], keep);
      assert items == items[..|items| - 1] + [items[|items| - 1]];
    }
  }

  /** What is kept is in the order it was in, and is exactly what the test keeps. */
  lemma KeptMeans<T>(items: seq<Element<T>>, keep: T -> bool)
    ensures Subsequence(Kept(items, keep), items) && Parses(Kept(items, keep))
    ensures forall e :: e in Kept(items, keep) <==> e in items && e.Parsed? && keep(e.value)
  {
    KeptInOrder(items, keep);
    KeptMembers(items, keep);
    forall i | 0 <= i < |Kept(items, keep)| ensures Kept(items, keep)[i].Parsed? {
      assert Kept(items, keep)[i] in Kept(items, keep);
    }
  }

  lemma {:induction false} KeptTwice<T(!new)>(items: seq<Element<T>>, first: T -> bool, second: T -> bool, both: T -> bool)
    requires forall x :: both(x) <==> first(x) && second(x)
    ensures Kept(Kept(items, first), second) == Kept(items, both)
  {
    if items != [] {
      var before, last := items[..|items| - 1], items[|items| - 1];
      var kept := Kept(before, first);
      KeptTwice(before, first, second, both);
      assert (kept + [last])[..|kept|] == kept;
      assert kept + [] == kept;
    }
  }

  lemma {:induction false} KeptSame<T(!new)>(items: seq<Element<T>>, keep: T -> bool, other: T -> bool)
    requires forall x :: keep(x) <==> other(x)
    ensures Kept(items, keep) == Kept(items, other)
  {
    if items != [] {
      KeptSame(items[..|items| - 1], keep, other);
    }
  }

  lemma {:induction false} AllKeptIff<T>(items: seq<Element<T>>, keep: T -> bool)
    requires Parses(items)
    ensures Kept(items, keep) == items <==> forall i :: 0 <= i < |items| ==> keep(items[i].value)
    ensures |Kept(items, keep)| <= |items|
  {
    if items != [] {
      var before, last := items[..|items| - 1], items[|items| - 1];
      AllKeptIff(before, keep);
      assert items == before + [last];
      if Kept(items, keep) == items {
        assert Kept(items, keep)[..|before|] == Kept(before, keep);
      }
    }
  }

  // ---- filtering twice

  lemma {:induction false} RemainingFewer(nodes: seq<string>, ids: set<string>, fewer: set<string>)
    requires fewer <= ids
    ensures Remaining(nodes, fewer) <= Remaining(nodes, ids)
  {
    if nodes != [] {
      RemainingFewer(nodes[..|nodes| - 1], ids, fewer);
    }
  }

  lemma NodesTwice(g: Graph, ps: seq<string>, qs: seq<string>, seg: SegMatch)
    ensures Kept(Kept(Items(g.nodes), KeepsNode(ps, seg)), KeepsNode(qs, seg)) == Kept(Items(g.nodes), KeepsNode(ps + qs, seg))
  {
    forall n ensures KeepsNode(ps + qs, seg)(n) <==> KeepsNode(ps, seg)(n) && KeepsNode(qs, seg)(n) {
      MatchesEither(ps, qs, n.file, seg);
    }
    KeptTwice(Items(g.nodes), KeepsNode(ps, seg), KeepsNode(qs, seg), KeepsNode(ps + qs, seg));
  }

  /** A second filter can only take survivors away. */
  lemma FewerSurvive(g: Graph, ps: seq<string>, qs: seq<string>, seg: SegMatch)
    ensures Survivors(g, ps + qs, seg) <= Survivors(g, ps, seg)
  {
    var kept, fewer := Kept(Items(g.nodes), KeepsNode(ps, seg)), Kept(Items(g.nodes), KeepsNode(ps + qs, seg));
    KeptMeans(Items(g.nodes), KeepsNode(ps, seg));
    KeptMeans(Items(g.nodes), KeepsNode(ps + qs, seg));
    forall id | id in IDs(fewer) ensures id in IDs(kept) {
      var i :| 0 <= i < |fewer| && fewer[i].Parsed? && fewer[i].value.id == id;
      MatchesEither(ps, qs, fewer[i].value.file, seg);
      assert fewer[i] in fewer && fewer[i] in kept;
    }
  }

  lemma LinksTwice(items: seq<Element<Link>>, ids: set<string>, fewer: set<string>, ps: seq<string>, qs: seq<string>, seg: SegMatch)
    requires fewer <= ids
    ensures Kept(Kept(items, KeepsLink(ids, ps, seg)), KeepsLink(fewer, qs, seg)) == Kept(items, KeepsLink(fewer, ps + qs, seg))
  {
    forall l ensures KeepsLink(fewer, ps + qs, seg)(l) <==> KeepsLink(ids, ps, seg)(l) && KeepsLink(fewer, qs, seg)(l) {
      MatchesEither(ps, qs, l.file, seg);
    }
    KeptTwice(items, KeepsLink(ids, ps, seg), KeepsLink(fewer, qs, seg), KeepsLink(fewer, ps + qs, seg));
  }

  lemma HyperedgesTwice(items: seq<Element<Hyperedge>>, ids: set<string>, fewer: set<string>,
                        ps: seq<string>, qs: seq<string>, seg: SegMatch)
    requires fewer <= ids
    ensures Kept(Kept(items, KeepsHyperedge(ids, ps, seg)), KeepsHyperedge(fewer, qs, seg))
         == Kept(items, KeepsHyperedge(fewer, ps + qs, seg))
  {
    forall h ensures KeepsHyperedge(fewer, ps + qs, seg)(h) <==> KeepsHyperedge(ids, ps, seg)(h) && KeepsHyperedge(fewer, qs, seg)(h) {
      MatchesEither(ps, qs, h.file, seg);
      RemainingFewer(h.nodes, ids, fewer);
    }
    KeptTwice(items, KeepsHyperedge(ids, ps, seg), KeepsHyperedge(fewer, qs, seg), KeepsHyperedge(fewer, ps + qs, seg));
  }

  lemma SiftComposes(g: Graph, ps: seq<string>, qs: seq<string>, seg: SegMatch)
    ensures Sifted(Sifted(g, ps, seg), qs, seg) == Sifted(g, ps + qs, seg)
  {
    var ids, fewer := Survivors(g, ps, seg), Survivors(g, ps + qs, seg);
    NodesTwice(g, ps, qs, seg);
    FewerSurvive(g, ps, qs, seg);
    LinksTwice(Items(g.links), ids, fewer, ps, qs, seg);
    HyperedgesTwice(Items(g.hyperedges), ids, fewer, ps, qs, seg);
  }

  /** Patterns that match the same files filter alike. */
  lemma SiftedSame(g: Graph, ps: seq<string>, qs: seq<string>, seg: SegMatch)
    requires forall f :: MatchesAny(ps, f, seg) == MatchesAny(qs, f, seg)
    ensures Sifted(g, ps, seg) == Sifted(g, qs, seg)
  {
    KeptSame(Items(g.nodes), KeepsNode(ps, seg), KeepsNode(qs, seg));
    var ids := Survivors(g, ps, seg);
    KeptSame(Items(g.links), KeepsLink(ids, ps, seg), KeepsLink(ids, qs, seg));
    KeptSame(Items(g.hyperedges), KeepsHyperedge(ids, ps, seg), KeepsHyperedge(ids, qs, seg));
  }

  // ---- what the encoder does not touch

  /** What is kept does not depend on how it is spelled. */
  lemma {:induction false} KeptOfRecoded<T>(items: seq<Element<T>>, keep: T -> bool, enc: Encoder)
    ensures Kept(Recoded(items, enc), keep) == Recoded(Kept(items, keep), enc)
  {
    if items != [] {
      var before, last := items[..|items| - 1], items[|items| - 1];
      KeptOfRecoded(before, keep, enc);
      assert Recoded(items, enc)[..|before|] == Recoded(before, enc);
      assert Recoded(Kept(before, keep) + [last], enc) == Recoded(Kept(before, keep), enc) + Recoded([last], enc);
      assert Recoded([last], enc) == [Recoded(items, enc)[|before|]];
      assert Kept(before, keep) + [] == Kept(before, keep);
    }
  }

  lemma IDsOfRecoded(items: seq<Element<Node>>, enc: Encoder)
    ensures IDs(Recoded(items, enc)) == IDs(items)
  {
    var again := Recoded(items, enc);
    forall id ensures id in IDs(again) <==> id in IDs(items) {
      if id in IDs(items) {
        var i :| 0 <= i < |items| && items[i].Parsed? && items[i].value.id == id;
        assert again[i].value.id == id;
      }
    }
  }

  lemma ItemsOfMarshalled<T>(a: Arr<T>, enc: Encoder)
    ensures Items(RecodedArr(a, enc)) == Recoded(Items(a), enc)
  {
  }

  /** Filtering a written document is writing the filtered one. */
  lemma SiftOfMarshalled(g: Graph, ps: seq<string>, seg: SegMatch, enc: Encoder)
    ensures Sifted(Marshalled(g, enc), ps, seg) == Marshalled(Sifted(g, ps, seg), enc)
  {
    ItemsOfMarshalled(g.nodes, enc);
    ItemsOfMarshalled(g.links, enc);
    ItemsOfMarshalled(g.hyperedges, enc);
    var ids := Survivors(g, ps, seg);
    KeptOfRecoded(Items(g.nodes), KeepsNode(ps, seg), enc);
    IDsOfRecoded(Kept(Items(g.nodes), KeepsNode(ps, seg)), enc);
    KeptOfRecoded(Items(g.links), KeepsLink(ids, ps, seg), enc);
    KeptOfRecoded(Items(g.hyperedges), KeepsHyperedge(ids, ps, seg), enc);
  }

  /** Reading bytes as an element. */
  function Read<T>(bytes: string, parse: string -> Option<T>): Element<T> {
    match parse(bytes)
    case Some(value) => Parsed(bytes, value)
    case None => Malformed(bytes)
  }

  /** When the encoder keeps what a piece parses to, reading what was written gives the
      elements that the filter speaks of. */
  lemma WrittenIsReadBack<T(!new)>(items: seq<Element<T>>, enc: Encoder, parse: string -> Option<T>)
    requires forall b :: parse(enc(b)) == parse(b)
    requires forall i :: 0 <= i < |items| ==> items[i] == Read(items[i].bytes, parse)
    ensures forall i :: 0 <= i < |items| ==> Recoded(items, enc)[i] == Read(enc(items[i].bytes), parse)
  {
    forall i | 0 <= i < |items| ensures Recoded(items, enc)[i] == Read(enc(items[i].bytes), parse) {
      assert items[i] == Read(items[i].bytes, parse);
    }
  }

  // ---- filtering twice, as written

  /** Filtering by P and then by Q is filtering by both at once. */
  lemma FilterComposes(g: Graph, ps: seq<string>, qs: seq<string>, seg: SegMatch, enc: Encoder)
    requires Stable(enc)
    ensures Filtered(Filtered(g, ps, seg, enc), qs, seg, enc) == Filtered(g, ps + qs, seg, enc)
  {
    SiftOfMarshalled(Sifted(g, ps, seg), qs, seg, enc);
    SiftComposes(g, ps, qs, seg);
    MarshalledTwice(Sifted(g, ps + qs, seg), enc);
  }

  lemma SiftedIsReadable(g: Graph, ps: seq<string>, seg: SegMatch)
    requires AllReadable(g)
    ensures AllReadable(Sifted(g, ps, seg))
  {
    var ids := Survivors(g, ps, seg);
    KeptMeans(Items(g.nodes), KeepsNode(ps, seg));
    KeptMeans(Items(g.links), KeepsLink(ids, ps, seg));
    KeptMeans(Items(g.hyperedges), KeepsHyperedge(ids, ps, seg));
  }

  lemma FilteredIsReadable(g: Graph, ps: seq<string>, seg: SegMatch, enc: Encoder)
    requires AllReadable(g)
    ensures AllReadable(Filtered(g, ps, seg, enc))
  {
    SiftedIsReadable(g, ps, seg);
  }

  /** Filtering again by the same patterns changes nothing. */
  lemma FilterIsIdempotent(g: Graph, ps: seq<string>, seg: SegMatch, enc: Encoder)
    requires AllReadable(g) && Stable(enc)
    ensures FilterGraph(Filtered(g, ps, seg, enc), ps, seg, enc) == Some(Filtered(g, ps, seg, enc))
  {
    FilteredIsReadable(g, ps, seg, enc);
    FilterComposes(g, ps, ps, seg, enc);
    forall f ensures MatchesAny(ps + ps, f, seg) == MatchesAny(ps, f, seg) {
      MatchesEither(ps, ps, f, seg);
    }
    SiftedSame(g, ps + ps, ps, seg);
  }

  /** The order of two filters does not matter. */
  lemma FilterCommutes(g: Graph, ps: seq<string>, qs: seq<string>, seg: SegMatch, enc: Encoder)
    requires Stable(enc)
    ensures Filtered(Filtered(g, ps, seg, enc), qs, seg, enc) == Filtered(Filtered(g, qs, seg, enc), ps, seg, enc)
  {
    FilterComposes(g, ps, qs, seg, enc);
    FilterComposes(g, qs, ps, seg, enc);
    forall f ensures MatchesAny(ps + qs, f, seg) == MatchesAny(qs + ps, f, seg) {
      MatchesEither(ps, qs, f, seg);
      MatchesEither(qs, ps, f, seg);
    }
    SiftedSame(g, ps + qs, qs + ps, seg);
  }

  // ---- what a filtered graph is

  predicate LinksClosed(links: seq<Element<Link>>, ids: set<string>)
    requires Parses(links)
  {
    forall i :: 0 <= i < |links| ==> links[i].value.source in ids && links[i].value.target in ids
  }

  predicate HyperedgesClosed(hyperedges: seq<Element<Hyperedge>>, ids: set<string>)
    requires Parses(hyperedges)
  {
    forall i :: 0 <= i < |hyperedges| ==> Remaining(hyperedges[i].value.nodes, ids) >= 2
  }

  /** Every link joins nodes of the graph and every hyperedge at least two of them. */
  predicate Closed(g: Graph)
    requires AllReadable(g)
  {
    LinksClosed(Items(g.links), IDs(Items(g.nodes))) && HyperedgesClosed(Items(g.hyperedges), IDs(Items(g.nodes)))
  }

  /** `kept` is exactly what the test keeps of the items: in the order it was in, and each
      element as often as it was there. */
  ghost predicate KeepsExactly<T(!new)>(items: seq<Element<T>>, kept: seq<Element<T>>, keep: T -> bool) {
    && Subsequence(kept, items)
    && forall e :: multiset(kept)[e] == if e.Parsed? && keep(e.value) then multiset(items)[e] else 0
  }

  lemma {:induction false} KeptCounts<T>(items: seq<Element<T>>, keep: T -> bool)
    ensures forall e :: multiset(Kept(items, keep))[e] == if e.Parsed? && keep(e.value) then multiset(items)[e] else 0
  {
    if items != [] {
      KeptCounts(items[..|items| - 1], keep);
      assert items == items[..|items| - 1] + [items[|items| - 1]];
    }
  }

  lemma KeptIsExact<T(!new)>(items: seq<Element<T>>, keep: T -> bool)
    ensures KeepsExactly(items, Kept(items, keep), keep)
  {
    KeptInOrder(items, keep);
    KeptCounts(items, keep);
  }

  /** `written` spells the same values, in the same order, as the encoder writes them. */
  predicate Spells<T(==)>(kept: seq<Element<T>>, written: seq<Element<T>>, enc: Encoder) {
    && |written| == |kept|
    && forall i :: 0 <= i < |kept| ==>
      kept[i].Parsed? && written[i] == Parsed(enc(kept[i].bytes), kept[i].value)
  }

  lemma SiftedKeepsExactly(g: Graph, ps: seq<string>, seg: SegMatch)
    ensures var kept, ids := Sifted(g, ps, seg), Survivors(g, ps, seg);
      && KeepsExactly(Items(g.nodes), Items(kept.nodes), KeepsNode(ps, seg))
      && KeepsExactly(Items(g.links), Items(kept.links), KeepsLink(ids, ps, seg))
      && KeepsExactly(Items(g.hyperedges), Items(kept.hyperedges), KeepsHyperedge(ids, ps, seg))
  {
    var ids := Survivors(g, ps, seg);
    KeptIsExact(Items(g.nodes), KeepsNode(ps, seg));
    KeptIsExact(Items(g.links), KeepsLink(ids, ps, seg));
    KeptIsExact(Items(g.hyperedges), KeepsHyperedge(ids, ps, seg));
  }

  lemma MarshalledSpells(g: Graph, enc: Encoder)
    requires AllReadable(g)
    ensures var g' := Marshalled(g, enc);
      && Spells(Items(g.nodes), Items(g'.nodes), enc)
      && Spells(Items(g.links), Items(g'.links), enc)
      && Spells(Items(g.hyperedges), Items(g'.hyperedges), enc)
      && IDs(Items(g'.nodes)) == IDs(Items(g.nodes))
  {
    IDsOfRecoded(Items(g.nodes), enc);
  }

  /** What is written spells, in the order they were in, exactly the elements that no pattern
      matches and that still have their endpoints among the nodes that are left. */
  lemma FilteredKeepsExactly(g: Graph, ps: seq<string>, seg: SegMatch, enc: Encoder)
    requires AllReadable(g)
    ensures var g', kept, ids := Filtered(g, ps, seg, enc), Sifted(g, ps, seg), Survivors(g, ps, seg);
      && ids == IDs(Items(g'.nodes))
      && KeepsExactly(Items(g.nodes), Items(kept.nodes), KeepsNode(ps, seg))
      && KeepsExactly(Items(g.links), Items(kept.links), KeepsLink(ids, ps, seg))
      && KeepsExactly(Items(g.hyperedges), Items(kept.hyperedges), KeepsHyperedge(ids, ps, seg))
      && Spells(Items(kept.nodes), Items(g'.nodes), enc)
      && Spells(Items(kept.links), Items(g'.links), enc)
      && Spells(Items(kept.hyperedges), Items(g'.hyperedges), enc)
      && g'.rest.Keys == g.rest.Keys && forall key :: key in g.rest ==> g'.rest[key] == enc(g.rest[key])
  {
    SiftedKeepsExactly(g, ps, seg);
    SiftedIsReadable(g, ps, seg);
    MarshalledSpells(Sifted(g, ps, seg), enc);
  }

  // ---- the filter over the files, ids and endpoints themselves

  ghost predicate Excluded(ps: seq<string>, file: string, seg: SegMatch) {
    exists p :: p in ps && MatchesPattern(p, file, seg)
  }

  /** At least two places of a hyperedge hold a node that is left. */
  ghost predicate TwoLeft(nodes: seq<string>, ids: set<string>) {
    exists i, j :: 0 <= i < j < |nodes| && nodes[i] in ids && nodes[j] in ids
  }

  lemma ExcludedMeans(ps: seq<string>, file: string, seg: SegMatch)
    ensures Excluded(ps, file, seg) <==> MatchesAny(ps, file, seg)
  {
    if Excluded(ps, file, seg) {
      var p :| p in ps && MatchesPattern(p, file, seg);
      var i :| 0 <= i < |ps| && ps[i] == p;
    }
  }

  lemma {:induction false} RemainingMeans(nodes: seq<string>, ids: set<string>)
    ensures Remaining(nodes, ids) >= 1 <==> exists i :: 0 <= i < |nodes| && nodes[i] in ids
    ensures Remaining(nodes, ids) >= 2 <==> TwoLeft(nodes, ids)
  {
    if nodes != [] {
      var before, last := nodes[..|nodes| - 1], |nodes| - 1;
      RemainingMeans(before, ids);
      if i :| 0 <= i < |before| && before[i] in ids {
        assert nodes[i] in ids;
        assert nodes[last] in ids ==> TwoLeft(nodes, ids);
      }
      if TwoLeft(before, ids) {
        var i, j :| 0 <= i < j < |before| && before[i] in ids && before[j] in ids;
        assert nodes[i] in ids && nodes[j] in ids;
      }
      if TwoLeft(nodes, ids) {
        var i, j :| 0 <= i < j < |nodes| && nodes[i] in ids && nodes[j] in ids;
        assert before[i] in ids;
        assert j < last ==> before[j] in ids;
      }
    }
  }

  ghost function NodeStays(ps: seq<string>, seg: SegMatch): Node -> bool {
    (n: Node) => !Excluded(ps, n.file, seg)
  }

  ghost function LinkStays(ids: set<string>, ps: seq<string>, seg: SegMatch): Link -> bool {
    (l: Link) => !Excluded(ps, l.file, seg) && l.source in ids && l.target in ids
  }

  ghost function HyperedgeStays(ids: set<string>, ps: seq<string>, seg: SegMatch): Hyperedge -> bool {
    (h: Hyperedge) => !Excluded(ps, h.file, seg) && TwoLeft(h.nodes, ids)
  }

  /** `kept` holds of each array exactly what no pattern matches by its own file, of the links
      those with both ends left, and of the hyperedges those with two of their places left. */
  ghost predicate KeepsOf(g: Graph, kept: Graph, ids: set<string>, ps: seq<string>, seg: SegMatch) {
    && KeepsExactly(Items(g.nodes), Items(kept.nodes), NodeStays(ps, seg))
    && (forall id :: id in ids <==> exists e :: e in Items(kept.nodes) && e.Parsed? && e.value.id == id)
    && KeepsExactly(Items(g.links), Items(kept.links), LinkStays(ids, ps, seg))
    && KeepsExactly(Items(g.hyperedges), Items(kept.hyperedges), HyperedgeStays(ids, ps, seg))
  }

  lemma NodesKeptOf(items: seq<Element<Node>>, ps: seq<string>, seg: SegMatch)
    ensures KeepsExactly(items, Kept(items, KeepsNode(ps, seg)), NodeStays(ps, seg))
  {
    KeptIsExact(items, KeepsNode(ps, seg));
    forall file: string ensures Excluded(ps, file, seg) <==> MatchesAny(ps, file, seg) {
      ExcludedMeans(ps, file, seg);
    }
  }

  lemma LinksKeptOf(items: seq<Element<Link>>, ids: set<string>, ps: seq<string>, seg: SegMatch)
    ensures KeepsExactly(items, Kept(items, KeepsLink(ids, ps, seg)), LinkStays(ids, ps, seg))
  {
    KeptIsExact(items, KeepsLink(ids, ps, seg));
    forall file: string ensures Excluded(ps, file, seg) <==> MatchesAny(ps, file, seg) {
      ExcludedMeans(ps, file, seg);
    }
  }

  lemma HyperedgesKeptOf(items: seq<Element<Hyperedge>>, ids: set<string>, ps: seq<string>, seg: SegMatch)
    ensures KeepsExactly(items, Kept(items, KeepsHyperedge(ids, ps, seg)), HyperedgeStays(ids, ps, seg))
  {
    KeptIsExact(items, KeepsHyperedge(ids, ps, seg));
    forall h: Hyperedge
      ensures KeepsHyperedge(ids, ps, seg)(h) <==> !Excluded(ps, h.file, seg) && TwoLeft(h.nodes, ids)
    {
      ExcludedMeans(ps, h.file, seg);
      RemainingMeans(h.nodes, ids);
    }
  }

  lemma IDsMean(items: seq<Element<Node>>, id: string)
    ensures id in IDs(items) <==> exists e :: e in items && e.Parsed? && e.value.id == id
  {
    if e :| e in items && e.Parsed? && e.value.id == id {
      var i :| 0 <= i < |items| && items[i] == e;
    }
  }

  lemma ItemsOfEncoded<T>(a: Arr<T>, keep: T -> bool)
    ensures Items(Encoded(a, Kept(Items(a), keep))) == Kept(Items(a), keep)
  {
  }

  lemma SiftedKeepsOf(g: Graph, ps: seq<string>, seg: SegMatch)
    ensures KeepsOf(g, Sifted(g, ps, seg), Survivors(g, ps, seg), ps, seg)
  {
    var kept, ids := Sifted(g, ps, seg), Survivors(g, ps, seg);
    assert KeepsExactly(Items(g.nodes), Items(kept.nodes), NodeStays(ps, seg)) by {
      NodesKeptOf(Items(g.nodes), ps, seg);
      ItemsOfEncoded(g.nodes, KeepsNode(ps, seg));
    }
    assert KeepsExactly(Items(g.links), Items(kept.links), LinkStays(ids, ps, seg)) by {
      LinksKeptOf(Items(g.links), ids, ps, seg);
      ItemsOfEncoded(g.links, KeepsLink(ids, ps, seg));
    }
    assert KeepsExactly(Items(g.hyperedges), Items(kept.hyperedges), HyperedgeStays(ids, ps, seg)) by {
      HyperedgesKeptOf(Items(g.hyperedges), ids, ps, seg);
      ItemsOfEncoded(g.hyperedges, KeepsHyperedge(ids, ps, seg));
    }
    forall id ensures id in ids <==> exists e :: e in Items(kept.nodes) && e.Parsed? && e.value.id == id {
      ItemsOfEncoded(g.nodes, KeepsNode(ps, seg));
      IDsMean(Items(kept.nodes), id);
    }
  }

  /** The document is filtered exactly when each of the three arrays is an array, is null or is
      absent, and all their elements parse. What is written then spells what is kept, opens no
      absent array and leaves none null, and spells every other key. */
  lemma FilterMeans(g: Graph, ps: seq<string>, seg: SegMatch, enc: Encoder)
    ensures FilterGraph(g, ps, seg, enc).Some? <==>
      && !g.nodes.NotArray? && !g.links.NotArray? && !g.hyperedges.NotArray?
      && (forall e :: e in Items(g.nodes) ==> e.Parsed?)
      && (forall e :: e in Items(g.links) ==> e.Parsed?)
      && (forall e :: e in Items(g.hyperedges) ==> e.Parsed?)
    ensures FilterGraph(g, ps, seg, enc).Some? ==>
      var g' := FilterGraph(g, ps, seg, enc).value;
      && (exists kept, ids ::
        && KeepsOf(g, kept, ids, ps, seg)
        && Spells(Items(kept.nodes), Items(g'.nodes), enc)
        && Spells(Items(kept.links), Items(g'.links), enc)
        && Spells(Items(kept.hyperedges), Items(g'.hyperedges), enc))
      && (if g.nodes.Absent? then g'.nodes.Absent? else g'.nodes.Array?)
      && (if g.links.Absent? then g'.links.Absent? else g'.links.Array?)
      && (if g.hyperedges.Absent? then g'.hyperedges.Absent? else g'.hyperedges.Array?)
      && g'.rest.Keys == g.rest.Keys && forall key :: key in g.rest ==> g'.rest[key] == enc(g.rest[key])
  {
    ParsesMeans(Items(g.nodes));
    ParsesMeans(Items(g.links));
    ParsesMeans(Items(g.hyperedges));
    if AllReadable(g) {
      SiftedKeepsOf(g, ps, seg);
      FilteredKeepsExactly(g, ps, seg, enc);
    }
  }

  lemma ParsesMeans<T>(items: seq<Element<T>>)
    ensures Parses(items) <==> forall e :: e in items ==> e.Parsed?
  {
    forall i | 0 <= i < |items| ensures items[i] in items {
    }
  }

  lemma SiftedIsClosed(g: Graph, ps: seq<string>, seg: SegMatch)
    requires AllReadable(g)
    ensures AllReadable(Sifted(g, ps, seg)) && Closed(Sifted(g, ps, seg))
  {
    SiftedIsReadable(g, ps, seg);
    var g', ids := Sifted(g, ps, seg), Survivors(g, ps, seg);
    KeptMembers(Items(g.links), KeepsLink(ids, ps, seg));
    KeptMembers(Items(g.hyperedges), KeepsHyperedge(ids, ps, seg));
    forall i | 0 <= i < |Items(g'.links)| ensures KeepsLink(ids, ps, seg)(Items(g'.links)[i].value) {
      assert Items(g'.links)[i] in Items(g'.links);
    }
    forall i | 0 <= i < |Items(g'.hyperedges)| ensures KeepsHyperedge(ids, ps, seg)(Items(g'.hyperedges)[i].value) {
      assert Items(g'.hyperedges)[i] in Items(g'.hyperedges);
    }
  }

  /** So no link or hyperedge of a filtered graph dangles. */
  lemma FilteredIsClosed(g: Graph, ps: seq<string>, seg: SegMatch, enc: Encoder)
    requires AllReadable(g)
    ensures AllReadable(Filtered(g, ps, seg, enc)) && Closed(Filtered(g, ps, seg, enc))
  {
    SiftedIsClosed(g, ps, seg);
    FilteredIsReadable(g, ps, seg, enc);
    IDsOfRecoded(Items(Sifted(g, ps, seg).nodes), enc);
  }

  lemma NoPatternsKeepLinks(links: seq<Element<Link>>, ids: set<string>, seg: SegMatch)
    requires Parses(links)
    ensures Kept(links, KeepsLink(ids, [], seg)) == links <==> LinksClosed(links, ids)
  {
    AllKeptIff(links, KeepsLink(ids, [], seg));
  }

  lemma NoPatternsKeepHyperedges(hyperedges: seq<Element<Hyperedge>>, ids: set<string>, seg: SegMatch)
    requires Parses(hyperedges)
    ensures Kept(hyperedges, KeepsHyperedge(ids, [], seg)) == hyperedges <==> HyperedgesClosed(hyperedges, ids)
  {
    AllKeptIff(hyperedges, KeepsHyperedge(ids, [], seg));
  }

  predicate NullFree(g: Graph) {
    !g.nodes.Null? && !g.links.Null? && !g.hyperedges.Null?
  }

  lemma NoPatternsSiftNothingIff(g: Graph, seg: SegMatch)
    requires AllReadable(g)
    ensures Sifted(g, [], seg) == g <==> Closed(g) && NullFree(g)
  {
    AllKeptIff(Items(g.nodes), KeepsNode([], seg));
    assert Kept(Items(g.nodes), KeepsNode([], seg)) == Items(g.nodes);
    NoPatternsKeepLinks(Items(g.links), IDs(Items(g.nodes)), seg);
    NoPatternsKeepHyperedges(Items(g.hyperedges), IDs(Items(g.nodes)), seg);
  }

  /** Every raw piece is spelled as the encoder would spell it. */
  predicate InEncoding(g: Graph, enc: Encoder) {
    && (forall i :: 0 <= i < |Items(g.nodes)| ==> enc(Items(g.nodes)[i].bytes) == Items(g.nodes)[i].bytes)
    && (forall i :: 0 <= i < |Items(g.links)| ==> enc(Items(g.links)[i].bytes) == Items(g.links)[i].bytes)
    && (forall i :: 0 <= i < |Items(g.hyperedges)| ==> enc(Items(g.hyperedges)[i].bytes) == Items(g.hyperedges)[i].bytes)
    && forall key :: key in g.rest ==> enc(g.rest[key]) == g.rest[key]
  }

  lemma RecodedSameIff<T>(items: seq<Element<T>>, enc: Encoder)
    ensures Recoded(items, enc) == items <==> forall i :: 0 <= i < |items| ==> enc(items[i].bytes) == items[i].bytes
  {
    if forall i :: 0 <= i < |items| ==> enc(items[i].bytes) == items[i].bytes {
      assert Recoded(items, enc) == items;
    } else {
      var i :| 0 <= i < |items| && enc(items[i].bytes) != items[i].bytes;
      assert Recoded(items, enc)[i] != items[i];
    }
  }

  lemma MarshalledSameIff(g: Graph, enc: Encoder)
    ensures Marshalled(g, enc) == g <==> InEncoding(g, enc)
  {
    RecodedSameIff(Items(g.nodes), enc);
    RecodedSameIff(Items(g.links), enc);
    RecodedSameIff(Items(g.hyperedges), enc);
    var again := Marshalled(g, enc).rest;
    assert again == g.rest <==> forall key :: key in g.rest ==> again[key] == g.rest[key];
  }

  lemma SameLengthIsSame<T>(a: Arr<T>, kept: seq<Element<T>>, keep: T -> bool, enc: Encoder)
    requires Readable(a) && kept == Kept(Items(a), keep)
    requires RecodedArr(Encoded(a, kept), enc) == a
    ensures kept == Items(a)
  {
    KeptAllIfAsMany(Items(a), keep);
  }

  lemma {:induction false} KeptAllIfAsMany<T>(items: seq<Element<T>>, keep: T -> bool)
    ensures |Kept(items, keep)| <= |items|
    ensures |Kept(items, keep)| == |items| ==> Kept(items, keep) == items
  {
    if items != [] {
      KeptAllIfAsMany(items[..|items| - 1], keep);
      assert items == items[..|items| - 1] + [items[|items| - 1]];
    }
  }

  /** With no patterns the filter leaves a document as it is, to the byte, exactly when it is
      already closed, holds no null array and every piece of it is in the encoder's spelling. */
  lemma NoPatternsIsIdentityIffClosed(g: Graph, seg: SegMatch, enc: Encoder)
    requires AllReadable(g)
    ensures Filtered(g, [], seg, enc) == g <==> Closed(g) && NullFree(g) && InEncoding(g, enc)
  {
    NoPatternsSiftNothingIff(g, seg);
    MarshalledSameIff(g, enc);
    if Filtered(g, [], seg, enc) == g {
      var ids := Survivors(g, [], seg);
      SameLengthIsSame(g.nodes, Kept(Items(g.nodes), KeepsNode([], seg)), KeepsNode([], seg), enc);
      SameLengthIsSame(g.links, Kept(Items(g.links), KeepsLink(ids, [], seg)), KeepsLink(ids, [], seg), enc);
      SameLengthIsSame(g.hyperedges, Kept(Items(g.hyperedges), KeepsHyperedge(ids, [], seg)), KeepsHyperedge(ids, [], seg), enc);
      assert Sifted(g, [], seg) == g;
    }
  }

  /** And it only spells the same values anew exactly when the first two hold. */
  lemma NoPatternsOnlySpellsIff(g: Graph, seg: SegMatch, enc: Encoder)
    requires AllReadable(g)
    ensures Filtered(g, [], seg, enc) == Marshalled(g, enc) <==> Closed(g) && NullFree(g)
  {
    NoPatternsSiftNothingIff(g, seg);
    if Filtered(g, [], seg, enc) == Marshalled(g, enc) {
      var ids := Survivors(g, [], seg);
      KeptAllIfAsMany(Items(g.nodes), KeepsNode([], seg));
      KeptAllIfAsMany(Items(g.links), KeepsLink(ids, [], seg));
      KeptAllIfAsMany(Items(g.hyperedges), KeepsHyperedge(ids, [], seg));
      assert |Items(Sifted(g, [], seg).nodes)| == |Items(Filtered(g, [], seg, enc).nodes)|;
      assert |Items(Sifted(g, [], seg).links)| == |Items(Filtered(g, [], seg, enc).links)|;
      assert |Items(Sifted(g, [], seg).hyperedges)| == |Items(Filtered(g, [], seg, enc).hyperedges)|;
      assert Sifted(g, [], seg) == g;
    }
  }
}
