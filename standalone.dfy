/**
 * `main` of the standalone program: the same record loop as the library's `run`,
 * except that it keeps no total and counts the flight at the origin before it
 * looks up the destination, and the ranking is printed without line numbers.
 */
module Standalone {
  import opened Wrappers
  import opened Airports
  import opened Flights
  import opened Graph
  import opened Ranking

  /**
   * `while let Some(airport) = heap.pop()`, printing one line per airport: the
   * printed airports are what was in the heap, each element once, in
   * non-decreasing order of flights.
   */
  method PrintRanking(heap: AirportHeap) returns (printed: seq<Airport>)
    modifies heap
    ensures SortedByFlights(printed)
    ensures multiset(printed) == multiset(old(heap.items))
    ensures heap.items == []
  {
    ghost var all := heap.items;
    printed := [];
    var next := heap.Pop();
    DrainStart(all, next, heap.items);
    while next.Some?
      invariant Draining(printed, next, heap.items, all)
      decreases |heap.items| + if next.Some? then 1 else 0
    {
      var airport := next.value;
      ghost var before := heap.items;
      next := heap.Pop();
      DrainStep(printed, airport, before, next, heap.items, all);
      printed := printed + [airport];
    }
    DrainEnd(printed, heap.items, all);
  }

  /**
   * The record loop of `main`, which updates the locals `graph` (its node weights and
   * its edge list) and `node_indices`. A record whose origin or destination id does
   * not parse ends the loop with that error; otherwise the graph models the parsed
   * flights.
   */
  method IngestMain(records: seq<Record>)
    returns (err: Option<ParseError>, nodes: seq<Airport>, nodeIndices: map<u32, nat>, edges: seq<(nat, nat)>)
    ensures ParseAll(records).Failure? ==> err == Some(ParseAll(records).error)
    ensures ParseAll(records).Failure? ==>
      exists k :: 0 <= k < |records| && Parse(records[k]).Failure? && ParseAll(records[..k]).Success? &&
        Models(nodes, nodeIndices, edges, ParseAll(records[..k]).value)
    ensures ParseAll(records).Success? ==> err == None && Models(nodes, nodeIndices, edges, ParseAll(records).value)
  {
    nodes, nodeIndices, edges := [], map[], [];
    ghost var ingested: seq<Flight> := [];
    ModelsEmpty();
    var i := 0;
    while i < |records|
      invariant 0 <= i <= |records|
      invariant ParseAll(records[..i]) == Success(ingested)
      invariant Models(nodes, nodeIndices, edges, ingested)
    {
      var r := records[i];
      ParseAllStep(records, i);
      if r.originId.None? || r.destId.None? {
        ParseAllPrefixFailure(records, i + 1);
        assert Parse(records[i]).Failure? && ParseAll(records[..i]).Success?;
        return Some(Parse(r).error), nodes, nodeIndices, edges;
      }
      var f := Parse(r).value;
      // The origin's node, found or created, and the flight counted there.
      var o := OrInsert(nodes, nodeIndices, f.originId, f.origin, f.originCity);
      var counted := CountFlight(o.0, o.2);
      // The destination's node, found or created, and the edge.
      var d := OrInsert(counted, o.1, f.destId, f.dest, f.destCity);
      FlightBeforeDestLookup(nodes, nodeIndices, edges, ingested, f, o, counted, d);
      nodes, nodeIndices, edges := d.0, d.1, edges + [(o.2, d.2)];
      ingested := ingested + [f];
      i := i + 1;
    }
    assert records[..i] == records;
    err := None;
  }

  /**
   * `main` over the records the CSV reader yields: a record whose origin or
   * destination id does not parse ends the program with that error before anything
   * is printed; otherwise the printed airports are the listing of the flights.
   */
  method RunMain(records: seq<Record>) returns (res: Result<seq<Airport>, ParseError>)
    ensures ParseAll(records).Failure? ==> res == Failure(ParseAll(records).error)
    ensures ParseAll(records).Success? ==> res.Success? && IsListing(ParseAll(records).value, res.value)
  {
    var err, nodes, nodeIndices, edges := IngestMain(records);
    if err.Some? {
      return Failure(err.value);
    }
    var heap := FillHeap(nodes);
    var printed := PrintRanking(heap);
    ListingOfGraph(nodes, nodeIndices, edges, ParseAll(records).value, printed);
    res := Success(printed);
  }

  /**
   * A record whose origin and destination are the same airport: the destination
   * lookup finds the node the origin lookup found or created, so at most one node is
   * added, its counter goes up once, and the edge is a loop on that node.
   */
  lemma SelfLoop(nodes: seq<Airport>, index: map<u32, nat>, f: Flight, o: Lookup, c: seq<Airport>, d: Lookup)
    requires Indexed(nodes, index) && f.originId == f.destId
    requires o == OrInsert(nodes, index, f.originId, f.origin, f.originCity)
    requires o.2 < |o.0| && c == CountFlight(o.0, o.2)
    requires d == OrInsert(c, o.1, f.destId, f.dest, f.destCity)
    ensures d.0 == c && d.1 == o.1 && d.2 == o.2
    ensures |d.0| <= |nodes| + 1
    ensures d.0[d.2].flights == (if f.originId in index then nodes[index[f.originId]].flights else 0) + 1
  {
  }
}
