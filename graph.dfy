/**
 * The airport graph as values: the node weights of the `DiGraph` indexed by
 * `NodeIndex`, the `node_indices` map from airport id to index, and the edge list.
 * `Models` says when these hold the graph built from a sequence of flights; the
 * lemmas below show that each step of the ingestion loop keeps it.
 */
module Graph {
  import opened Airports
  import opened Flights

  /** `node_indices` and the nodes agree: one node per id, found at its index. */
  ghost predicate Indexed(nodes: seq<Airport>, index: map<u32, nat>)
  {
    (forall id :: id in index ==> index[id] < |nodes| && nodes[index[id]].id == id) &&
    (forall i :: 0 <= i < |nodes| ==> nodes[i].id in index && index[nodes[i].id] == i)
  }

  ghost predicate DistinctIds(s: seq<Airport>)
  {
    forall i, j :: 0 <= i < j < |s| ==> s[i].id != s[j].id
  }

  /** One node per id: distinct nodes hold distinct ids. */
  lemma IndexedDistinct(nodes: seq<Airport>, index: map<u32, nat>)
    requires Indexed(nodes, index)
    ensures DistinctIds(nodes)
  {
    forall i, j | 0 <= i < j < |nodes| ensures nodes[i].id != nodes[j].id {
      assert index[nodes[i].id] == i && index[nodes[j].id] == j;
    }
  }

  /**
   * `node_indices.entry(id).or_insert_with(|| graph.add_node(Airport::new(id, name, city)))`:
   * the node for `id` and its index, a fresh node being added at the end of the graph
   * when `id` has none yet. Existing nodes and indices are left as they are.
   */
  function OrInsert(nodes: seq<Airport>, index: map<u32, nat>, id: u32, name: string, city: string)
    : (r: (seq<Airport>, map<u32, nat>, nat))
    ensures id in r.1 && r.2 == r.1[id] && |nodes| <= |r.0|
    ensures Indexed(nodes, index) ==> r.2 < |r.0|
    ensures id in index ==> r.0 == nodes && r.1 == index
    ensures id !in index ==> r.0 == nodes + [NewAirport(id, name, city)] && r.1 == index[id := |nodes|]
  {
    if id in index then (nodes, index, index[id])
    else (nodes + [NewAirport(id, name, city)], index[id := |nodes|], |nodes|)
  }

  /** Looking up or creating a node keeps `node_indices` and the nodes in agreement. */
  lemma OrInsertIndexed(nodes: seq<Airport>, index: map<u32, nat>, id: u32, name: string, city: string)
    requires Indexed(nodes, index)
    ensures var r := OrInsert(nodes, index, id, name, city); Indexed(r.0, r.1)
  {
  }

  /** `graph.node_weight_mut(i)` followed by `flights += 1`. */
  function CountFlight(nodes: seq<Airport>, i: nat): (r: seq<Airport>)
    requires i < |nodes|
    ensures |r| == |nodes| && r[i].flights == nodes[i].flights + 1
    ensures r[i].id == nodes[i].id && Attributes(r[i]) == Attributes(nodes[i])
    ensures forall j :: 0 <= j < |nodes| && j != i ==> r[j] == nodes[j]
  {
    nodes[i := nodes[i].(flights := nodes[i].flights + 1)]
  }

  /** Exactly the ids mentioned have nodes, each with the code and city of its first mention. */
  ghost predicate Named(nodes: seq<Airport>, index: map<u32, nat>, ms: seq<Mention>)
  {
    index.Keys == Seen(ms) &&
    forall i :: 0 <= i < |nodes| ==>
      nodes[i].id in Seen(ms) && Attributes(nodes[i]) == FirstSeen(ms, nodes[i].id)
  }

  /** Every node counts the flights of `fs` leaving it. */
  ghost predicate Counted(nodes: seq<Airport>, fs: seq<Flight>)
  {
    forall i :: 0 <= i < |nodes| ==> nodes[i].flights == Outbound(fs, nodes[i].id)
  }

  /** One edge per flight, from its origin's node to its destination's node, in order. */
  ghost predicate Linked(index: map<u32, nat>, edges: seq<(nat, nat)>, fs: seq<Flight>)
  {
    |edges| == |fs| &&
    forall k :: 0 <= k < |fs| ==>
      fs[k].originId in index && fs[k].destId in index &&
      edges[k] == (index[fs[k].originId], index[fs[k].destId])
  }

  /**
   * The graph built from the flights `fs`: one node per airport id they name, with the
   * code and city it was first named with and the number of flights leaving it, and
   * one edge per flight.
   */
  ghost predicate Models(nodes: seq<Airport>, index: map<u32, nat>, edges: seq<(nat, nat)>, fs: seq<Flight>)
  {
    Indexed(nodes, index) &&
    Named(nodes, index, Mentions(fs)) && Counted(nodes, fs) && Linked(index, edges, fs)
  }

  /** The empty graph models no flights. */
  lemma ModelsEmpty()
    ensures Models([], map[], [], [])
  {
    assert Mentions([]) == [];
  }

  /** Looking up or creating a node is one more mention: a new id takes the mention's attributes. */
  lemma NamedAfterInsert(nodes: seq<Airport>, index: map<u32, nat>, ms: seq<Mention>, m: Mention)
    requires Indexed(nodes, index) && Named(nodes, index, ms)
    ensures var r := OrInsert(nodes, index, m.id, m.name, m.city); Named(r.0, r.1, ms + [m])
  {
    var ms' := ms + [m];
    assert ms'[..|ms|] == ms;
    assert Seen(ms') == Seen(ms) + {m.id} by {
      forall x | x in ms' ensures x in ms || x == m {
        var i :| 0 <= i < |ms'| && ms'[i] == x;
        if i < |ms| {
          assert ms[i] == x;
        }
      }
      assert ms'[|ms|] == m;
    }
  }

  /** Counting a flight does not move any node. */
  lemma IndexedAfterCount(nodes: seq<Airport>, index: map<u32, nat>, i: nat)
    requires Indexed(nodes, index) && i < |nodes|
    ensures Indexed(CountFlight(nodes, i), index)
  {
    var r := CountFlight(nodes, i);
    forall j | 0 <= j < |r| ensures r[j].id == nodes[j].id {
      if j != i {
        assert r[j] == nodes[j];
      }
    }
  }

  /** Counting a flight does not touch the attributes. */
  lemma NamedAfterCount(nodes: seq<Airport>, index: map<u32, nat>, ms: seq<Mention>, i: nat)
    requires Named(nodes, index, ms) && i < |nodes|
    ensures Named(CountFlight(nodes, i), index, ms)
  {
    var r := CountFlight(nodes, i);
    forall j | 0 <= j < |r| ensures r[j].id in Seen(ms) && Attributes(r[j]) == FirstSeen(ms, r[j].id) {
      if j != i {
        assert r[j] == nodes[j];
      }
    }
  }

  /** A node created for an id that no flight leaves rightly starts with no flights. */
  lemma CountedAfterInsert(nodes: seq<Airport>, index: map<u32, nat>, fs: seq<Flight>, m: Mention)
    requires Indexed(nodes, index) && Counted(nodes, fs)
    requires m.id !in index ==> Outbound(fs, m.id) == 0
    ensures Counted(OrInsert(nodes, index, m.id, m.name, m.city).0, fs)
  {
  }

  /** Counting the flight at its origin's node accounts for it. */
  lemma CountedAfterCount(nodes: seq<Airport>, index: map<u32, nat>, fs: seq<Flight>, f: Flight, i: nat)
    requires Indexed(nodes, index) && Counted(nodes, fs)
    requires i < |nodes| && nodes[i].id == f.originId
    ensures Counted(CountFlight(nodes, i), fs + [f])
  {
    IndexedDistinct(nodes, index);
    var r := CountFlight(nodes, i);
    forall j | 0 <= j < |r| ensures r[j].flights == Outbound(fs + [f], r[j].id) {
      OutboundAppend(fs, f, r[j].id);
      if j != i {
        assert r[j] == nodes[j];
      }
    }
  }

  /** The edge added for `f` joins the nodes of its two ids; earlier edges keep their meaning. */
  lemma LinkedAfterFlight(index: map<u32, nat>, edges: seq<(nat, nat)>, index': map<u32, nat>,
                          fs: seq<Flight>, f: Flight)
    requires Linked(index, edges, fs)
    requires forall id :: id in index ==> id in index' && index'[id] == index[id]
    requires f.originId in index' && f.destId in index'
    ensures Linked(index', edges + [(index'[f.originId], index'[f.destId])], fs + [f])
  {
    var fs', edges' := fs + [f], edges + [(index'[f.originId], index'[f.destId])];
    forall k | 0 <= k < |fs'|
      ensures fs'[k].originId in index' && fs'[k].destId in index' &&
              edges'[k] == (index'[fs'[k].originId], index'[fs'[k].destId])
    {
      if k < |fs| {
        assert fs'[k] == fs[k] && edges'[k] == edges[k];
      }
    }
  }

  /** Looking up both airports of `f` records its two mentions and keeps the counters and the total. */
  lemma BothLookups(nodes: seq<Airport>, index: map<u32, nat>, fs: seq<Flight>, f: Flight)
    requires Indexed(nodes, index) && Named(nodes, index, Mentions(fs)) && Counted(nodes, fs)
    ensures
      var o := OrInsert(nodes, index, f.originId, f.origin, f.originCity);
      var d := OrInsert(o.0, o.1, f.destId, f.dest, f.destCity);
      Indexed(d.0, d.1) && Named(d.0, d.1, Mentions(fs + [f])) && Counted(d.0, fs) &&
      SumFlights(d.0) == SumFlights(nodes)
  {
    var ms := Mentions(fs);
    MentionsAppend(fs, f);
    IdsAppend(fs, f);
    if f.originId !in Ids(fs) {
      OutboundUnmentioned(fs, f.originId);
    }
    if f.destId !in Ids(fs) {
      OutboundUnmentioned(fs, f.destId);
    }
    var o := OrInsert(nodes, index, f.originId, f.origin, f.originCity);
    OrInsertIndexed(nodes, index, f.originId, f.origin, f.originCity);
    OrInsertIndexed(o.0, o.1, f.destId, f.dest, f.destCity);
    NamedAfterInsert(nodes, index, ms, OriginMention(f));
    CountedAfterInsert(nodes, index, fs, OriginMention(f));
    SumAfterInsert(nodes, index, OriginMention(f));
    NamedAfterInsert(o.0, o.1, ms + [OriginMention(f)], DestMention(f));
    CountedAfterInsert(o.0, o.1, fs, DestMention(f));
    SumAfterInsert(o.0, o.1, DestMention(f));
  }

  /** Counting `f` at its origin's node, once the node exists, makes the graph model `fs + [f]`. */
  lemma CountAtOrigin(nodes: seq<Airport>, index: map<u32, nat>, edges: seq<(nat, nat)>,
                      fs: seq<Flight>, f: Flight, i: nat)
    requires Indexed(nodes, index) && Named(nodes, index, Mentions(fs + [f])) && Counted(nodes, fs)
    requires Linked(index, edges, fs + [f])
    requires i < |nodes| && nodes[i].id == f.originId
    ensures Models(CountFlight(nodes, i), index, edges, fs + [f])
    ensures SumFlights(CountFlight(nodes, i)) == SumFlights(nodes) + 1
  {
    IndexedAfterCount(nodes, index, i);
    NamedAfterCount(nodes, index, Mentions(fs + [f]), i);
    CountedAfterCount(nodes, index, fs, f, i);
    SumAfterCount(nodes, i);
  }

  /** The node for `id` and its index, as `OrInsert` returns them. */
  type Lookup = (seq<Airport>, map<u32, nat>, nat)

  /**
   * One iteration of the library's record loop: `o` looks up or creates the origin's
   * node, `d` then the destination's, the flight is counted at the origin (`nodes'`)
   * and its edge added (`edges'`). The graph then models one more flight and the
   * total goes up by one.
   */
  lemma FlightAfterLookups(nodes: seq<Airport>, index: map<u32, nat>, edges: seq<(nat, nat)>,
                           fs: seq<Flight>, f: Flight, o: Lookup, d: Lookup,
                           nodes': seq<Airport>, edges': seq<(nat, nat)>)
    requires Models(nodes, index, edges, fs)
    requires o == OrInsert(nodes, index, f.originId, f.origin, f.originCity)
    requires d == OrInsert(o.0, o.1, f.destId, f.dest, f.destCity)
    requires nodes' == CountFlight(d.0, o.2) && edges' == edges + [(o.2, d.2)]
    ensures d.1[f.originId] == o.2 && d.1[f.destId] == d.2
    ensures Models(nodes', d.1, edges', fs + [f])
    ensures SumFlights(nodes') == SumFlights(nodes) + 1
  {
    BothLookups(nodes, index, fs, f);
    LinkedAfterFlight(index, edges, d.1, fs, f);
    CountAtOrigin(d.0, d.1, edges', fs, f, o.2);
  }

  /**
   * One iteration of the standalone program's record loop, which counts the flight
   * at the origin (`c`) before it looks up the destination (`d`). The graph models
   * one more flight all the same.
   */
  lemma FlightBeforeDestLookup(nodes: seq<Airport>, index: map<u32, nat>, edges: seq<(nat, nat)>,
                               fs: seq<Flight>, f: Flight, o: Lookup, c: seq<Airport>, d: Lookup)
    requires Models(nodes, index, edges, fs)
    requires o == OrInsert(nodes, index, f.originId, f.origin, f.originCity)
    requires o.2 < |o.0| && c == CountFlight(o.0, o.2)
    requires d == OrInsert(c, o.1, f.destId, f.dest, f.destCity)
    ensures d.1[f.originId] == o.2 && d.1[f.destId] == d.2
    ensures Models(d.0, d.1, edges + [(o.2, d.2)], fs + [f])
  {
    var ms := Mentions(fs);
    MentionsAppend(fs, f);
    IdsAppend(fs, f);
    if f.originId !in Ids(fs) {
      OutboundUnmentioned(fs, f.originId);
    }
    OrInsertIndexed(nodes, index, f.originId, f.origin, f.originCity);
    NamedAfterInsert(nodes, index, ms, OriginMention(f));
    CountedAfterInsert(nodes, index, fs, OriginMention(f));
    IndexedAfterCount(o.0, o.1, o.2);
    OrInsertIndexed(c, o.1, f.destId, f.dest, f.destCity);
    NamedAfterCount(o.0, o.1, ms + [OriginMention(f)], o.2);
    CountedAfterCount(o.0, o.1, fs, f, o.2);
    if f.destId !in o.1 {
      OutboundUnmentioned(fs, f.destId);
      OutboundAppend(fs, f, f.destId);
    }
    NamedAfterInsert(c, o.1, ms + [OriginMention(f)], DestMention(f));
    CountedAfterInsert(c, o.1, fs + [f], DestMention(f));
    LinkedAfterFlight(index, edges, d.1, fs, f);
  }

  /**
   * The graph built from `fs`, read back: exactly one node per airport id the
   * flights name, found at `node_indices[id]`, carrying the code and city it was
   * first named with and the number of flights leaving it, and one edge per flight.
   */
  lemma ModelsGraph(nodes: seq<Airport>, index: map<u32, nat>, edges: seq<(nat, nat)>, fs: seq<Flight>)
    requires Models(nodes, index, edges, fs)
    ensures index.Keys == Ids(fs) && IdSet(nodes) == Ids(fs) && |nodes| == |Ids(fs)|
    ensures forall id :: id in index ==>
      index[id] < |nodes| && nodes[index[id]].id == id &&
      Attributes(nodes[index[id]]) == FirstMention(fs, id) &&
      nodes[index[id]].flights == Outbound(fs, id)
    ensures |edges| == |fs|
  {
    IndexedDistinct(nodes, index);
    DistinctIdsCount(nodes);
  }

  /** The number of edges leaving the node at index `i`. */
  function OutDegree(edges: seq<(nat, nat)>, i: nat): nat
  {
    if edges == [] then 0
    else OutDegree(edges[..|edges| - 1], i) + if edges[|edges| - 1].0 == i then 1 else 0
  }

  /** The edges of the flights leaving `id` are exactly the edges leaving its node. */
  lemma {:induction false} OutDegreeLinked(index: map<u32, nat>, edges: seq<(nat, nat)>, fs: seq<Flight>, id: u32)
    requires Linked(index, edges, fs) && id in index
    requires forall other :: other in index && index[other] == index[id] ==> other == id
    ensures OutDegree(edges, index[id]) == Outbound(fs, id)
  {
    if fs != [] {
      var n := |fs| - 1;
      assert Linked(index, edges[..n], fs[..n]) by {
        forall k | 0 <= k < n
          ensures fs[..n][k].originId in index && fs[..n][k].destId in index &&
                  edges[..n][k] == (index[fs[..n][k].originId], index[fs[..n][k].destId])
        {
          assert fs[..n][k] == fs[k] && edges[..n][k] == edges[k];
        }
      }
      OutDegreeLinked(index, edges[..n], fs[..n], id);
    }
  }

  /** Every node's counter equals the number of edges leaving it. */
  lemma EdgesLeaving(nodes: seq<Airport>, index: map<u32, nat>, edges: seq<(nat, nat)>, fs: seq<Flight>)
    requires Models(nodes, index, edges, fs)
    ensures forall i :: 0 <= i < |nodes| ==> OutDegree(edges, i) == nodes[i].flights
  {
    forall i | 0 <= i < |nodes| ensures OutDegree(edges, i) == nodes[i].flights {
      var id := nodes[i].id;
      forall other | other in index && index[other] == index[id] ensures other == id {
        assert nodes[index[other]].id == other;
      }
      OutDegreeLinked(index, edges, fs, id);
    }
  }

  // ---------------------------------------------------------------------------
  // The total of the counters.

  /** The total of `flights` over a sequence of nodes. */
  function SumFlights(nodes: seq<Airport>): nat
  {
    if nodes == [] then 0 else SumFlights(nodes[..|nodes| - 1]) + nodes[|nodes| - 1].flights
  }

  /** A new node adds its counter to the total. */
  lemma SumFlightsAppend(nodes: seq<Airport>, a: Airport)
    ensures SumFlights(nodes + [a]) == SumFlights(nodes) + a.flights
  {
    assert (nodes + [a])[..|nodes|] == nodes;
  }

  /** Creating a node, which starts at 0, keeps the total. */
  lemma SumAfterInsert(nodes: seq<Airport>, index: map<u32, nat>, m: Mention)
    requires Indexed(nodes, index)
    ensures SumFlights(OrInsert(nodes, index, m.id, m.name, m.city).0) == SumFlights(nodes)
  {
    if m.id !in index {
      SumFlightsAppend(nodes, NewAirport(m.id, m.name, m.city));
    }
  }

  /** Counting a flight raises the total by one. */
  lemma {:induction false} SumAfterCount(nodes: seq<Airport>, i: nat)
    requires i < |nodes|
    ensures SumFlights(CountFlight(nodes, i)) == SumFlights(nodes) + 1
  {
    var r := CountFlight(nodes, i);
    var n := |nodes| - 1;
    if i == n {
      assert r[..n] == nodes[..n];
    } else {
      assert r[..n] == CountFlight(nodes[..n], i);
      SumAfterCount(nodes[..n], i);
    }
  }

  // ---------------------------------------------------------------------------
  // What the ranking sees.

  /** The nodes with at least one outbound flight, in node order: what is pushed on the heap. */
  function Positive(nodes: seq<Airport>): seq<Airport>
  {
    if nodes == [] then []
    else Positive(nodes[..|nodes| - 1]) + if nodes[|nodes| - 1].flights > 0 then [nodes[|nodes| - 1]] else []
  }

  /** The filter keeps exactly the nodes with flights. */
  lemma {:induction false} PositiveMembers(nodes: seq<Airport>, a: Airport)
    ensures a in Positive(nodes) <==> a in nodes && a.flights > 0
  {
    if nodes != [] {
      var n := |nodes| - 1;
      PositiveMembers(nodes[..n], a);
      assert nodes == nodes[..n] + [nodes[n]];
    }
  }

  lemma PositiveAppend(nodes: seq<Airport>, a: Airport)
    ensures Positive(nodes + [a]) == Positive(nodes) + if a.flights > 0 then [a] else []
  {
    assert (nodes + [a])[..|nodes|] == nodes;
  }

  /** The ids of a sequence of nodes. */
  ghost function IdSet(s: seq<Airport>): set<u32>
  {
    set a | a in s :: a.id
  }

  /** A sequence of nodes with distinct ids has as many ids as nodes. */
  lemma {:induction false} DistinctIdsCount(s: seq<Airport>)
    requires DistinctIds(s)
    ensures |IdSet(s)| == |s|
  {
    if s != [] {
      var n := |s| - 1;
      var init := s[..n];
      assert DistinctIds(init) by {
        forall i, j | 0 <= i < j < |init| ensures init[i].id != init[j].id {
          assert init[i] == s[i] && init[j] == s[j];
        }
      }
      DistinctIdsCount(init);
      assert IdSet(s) == IdSet(init) + {s[n].id} by {
        assert s == init + [s[n]];
      }
      forall a | a in init ensures a.id != s[n].id {
        var j :| 0 <= j < |init| && init[j] == a;
        assert s[j] == a;
      }
    }
  }

  /** Filtering keeps ids distinct. */
  lemma {:induction false} PositiveDistinct(nodes: seq<Airport>)
    requires DistinctIds(nodes)
    ensures DistinctIds(Positive(nodes))
  {
    if nodes != [] {
      var n := |nodes| - 1;
      var init := nodes[..n];
      assert DistinctIds(init) by {
        forall i, j | 0 <= i < j < |init| ensures init[i].id != init[j].id {
          assert init[i] == nodes[i] && init[j] == nodes[j];
        }
      }
      PositiveDistinct(init);
      if nodes[n].flights > 0 {
        var p, q := Positive(nodes), Positive(init);
        assert p == q + [nodes[n]];
        forall j | 0 <= j < |q| ensures q[j].id != nodes[n].id {
          PositiveMembers(init, q[j]);
          var m :| 0 <= m < |init| && init[m] == q[j];
          assert nodes[m] == init[m];
        }
        forall i, j | 0 <= i < j < |p| ensures p[i].id != p[j].id {
          assert p[i] == q[i];
          if j < |q| {
            assert p[j] == q[j];
          }
        }
      }
    }
  }

  /** A node pushed on the heap carries its first-seen attributes and its outbound count. */
  lemma PositiveNode(nodes: seq<Airport>, index: map<u32, nat>, edges: seq<(nat, nat)>, fs: seq<Flight>,
                     a: Airport)
    requires Models(nodes, index, edges, fs) && a in Positive(nodes)
    ensures a.id in RankedIds(fs)
    ensures Attributes(a) == FirstMention(fs, a.id) && a.flights == Outbound(fs, a.id)
  {
    PositiveMembers(nodes, a);
    var i :| 0 <= i < |nodes| && nodes[i] == a;
    assert Named(nodes, index, Mentions(fs)) && Counted(nodes, fs);
  }

  /** Every airport with outbound flights has its node pushed on the heap. */
  lemma RankedNode(nodes: seq<Airport>, index: map<u32, nat>, edges: seq<(nat, nat)>, fs: seq<Flight>,
                   id: u32)
    requires Models(nodes, index, edges, fs) && id in RankedIds(fs)
    ensures id in IdSet(Positive(nodes))
  {
    assert Named(nodes, index, Mentions(fs)) && Counted(nodes, fs);
    var a := nodes[index[id]];
    PositiveMembers(nodes, a);
  }

  /**
   * What gets ranked: in a graph built from `fs`, the nodes pushed on the heap are
   * exactly the airports with outbound flights, one node per such id, each with its
   * first-seen attributes and its outbound count.
   */
  lemma PositiveNodes(nodes: seq<Airport>, index: map<u32, nat>, edges: seq<(nat, nat)>, fs: seq<Flight>)
    requires Models(nodes, index, edges, fs)
    ensures IdSet(Positive(nodes)) == RankedIds(fs)
    ensures |Positive(nodes)| == |RankedIds(fs)|
    ensures forall a :: a in Positive(nodes) ==>
      a.id in Ids(fs) && Attributes(a) == FirstMention(fs, a.id) && a.flights == Outbound(fs, a.id)
  {
    var p := Positive(nodes);
    forall id | id in RankedIds(fs) ensures id in IdSet(p) {
      RankedNode(nodes, index, edges, fs, id);
    }
    forall a | a in p
      ensures a.id in RankedIds(fs) && Attributes(a) == FirstMention(fs, a.id) && a.flights == Outbound(fs, a.id)
    {
      PositiveNode(nodes, index, edges, fs, a);
    }
    IndexedDistinct(nodes, index);
    PositiveDistinct(nodes);
    DistinctIdsCount(p);
  }
}
