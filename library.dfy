/**
 * `run` of the library crate: the record loop builds a directed airport graph,
 * counting the flights leaving each airport and in total, then the airports with
 * flights are ranked through a heap into numbered report lines.
 */
module Library {
  import opened Wrappers
  import opened Airports
  import opened Flights
  import opened Graph
  import opened Ranking

  /** One line `Node: <node>, Name: <name>, City: <city>, Degree: <flights>` with the airport it shows. */
  datatype RankLine = RankLine(node: nat, airport: Airport)

  /** The airports shown by a sequence of lines, in order. */
  function Shown(lines: seq<RankLine>): (r: seq<Airport>)
    ensures |r| == |lines|
    ensures forall k :: 0 <= k < |lines| ==> r[k] == lines[k].airport
  {
    seq(|lines|, k requires 0 <= k < |lines| => lines[k].airport)
  }

  /** The report for the flights `fs`: lines numbered from 1 showing the sorted listing. */
  ghost predicate IsRanking(fs: seq<Flight>, lines: seq<RankLine>)
  {
    (forall k :: 0 <= k < |lines| ==> lines[k].node == k + 1) &&
    IsListing(fs, Shown(lines))
  }

  /** `lines` shows `popped` in order, the `k`-th line numbered `k + 1`. */
  ghost predicate Numbered(lines: seq<RankLine>, popped: seq<Airport>)
  {
    |lines| == |popped| && forall k :: 0 <= k < |lines| ==> lines[k] == RankLine(k + 1, popped[k])
  }

  /** Writing the next airport with the next number keeps the numbering. */
  lemma NumberedAppend(lines: seq<RankLine>, popped: seq<Airport>, a: Airport)
    requires Numbered(lines, popped)
    ensures Numbered(lines + [RankLine(|lines| + 1, a)], popped + [a])
  {
  }

  /** Numbered lines show exactly the popped airports, numbered from 1. */
  lemma NumberedShown(lines: seq<RankLine>, popped: seq<Airport>)
    requires Numbered(lines, popped)
    ensures Shown(lines) == popped
    ensures forall k :: 0 <= k < |lines| ==> lines[k].node == k + 1
  {
  }

  /**
   * `while let Some(airport) = heap.pop()`, writing one line per airport and
   * numbering the lines from 1: the lines show what was in the heap, each element
   * once, in non-decreasing order of flights.
   */
  method WriteRanking(heap: AirportHeap) returns (lines: seq<RankLine>)
    modifies heap
    ensures forall k :: 0 <= k < |lines| ==> lines[k].node == k + 1
    ensures SortedByFlights(Shown(lines))
    ensures multiset(Shown(lines)) == multiset(old(heap.items))
    ensures heap.items == []
  {
    ghost var all := heap.items;
    lines := [];
    ghost var popped: seq<Airport> := [];
    var node := 1;
    var next := heap.Pop();
    DrainStart(all, next, heap.items);
    while next.Some?
      invariant Draining(popped, next, heap.items, all)
      invariant node == |lines| + 1 && Numbered(lines, popped)
      decreases |heap.items| + if next.Some? then 1 else 0
    {
      var airport := next.value;
      NumberedAppend(lines, popped, airport);
      lines := lines + [RankLine(node, airport)];
      node := node + 1;
      ghost var before := heap.items;
      next := heap.Pop();
      DrainStep(popped, airport, before, next, heap.items, all);
      popped := popped + [airport];
    }
    DrainEnd(popped, heap.items, all);
    NumberedShown(lines, popped);
  }

  /**
   * The record loop of `run`, which updates the locals `graph` (here its node
   * weights and its edge list), `node_indices` and `total_flights_processed`. A
   * record whose origin or destination id does not parse ends the loop with that
   * error. Otherwise the graph models the parsed flights, and the total counts them
   * and equals the sum of the counters.
   */
  method Ingest(records: seq<Record>)
    returns (err: Option<ParseError>, nodes: seq<Airport>, nodeIndices: map<u32, nat>,
             edges: seq<(nat, nat)>, totalFlightsProcessed: nat)
    ensures ParseAll(records).Failure? ==> err == Some(ParseAll(records).error)
    ensures ParseAll(records).Failure? ==>
      exists k :: 0 <= k < |records| && Parse(records[k]).Failure? && ParseAll(records[..k]).Success? &&
        Models(nodes, nodeIndices, edges, ParseAll(records[..k]).value) &&
        totalFlightsProcessed == k && totalFlightsProcessed == SumFlights(nodes)
    ensures ParseAll(records).Success? ==>
      err == None && Models(nodes, nodeIndices, edges, ParseAll(records).value) &&
      totalFlightsProcessed == |records| && totalFlightsProcessed == SumFlights(nodes)
  {
    nodes, nodeIndices, edges, totalFlightsProcessed := [], map[], [], 0;
    ghost var ingested: seq<Flight> := [];
    ModelsEmpty();
    var i := 0;
    while i < |records|
      invariant 0 <= i <= |records|
      invariant ParseAll(records[..i]) == Success(ingested)
      invariant Models(nodes, nodeIndices, edges, ingested)
      invariant totalFlightsProcessed == i == |ingested| == SumFlights(nodes)
    {
      var r := records[i];
      ParseAllStep(records, i);
      if r.originId.None? || r.destId.None? {
        ParseAllPrefixFailure(records, i + 1);
        assert Parse(records[i]).Failure? && ParseAll(records[..i]).Success?;
        return Some(Parse(r).error), nodes, nodeIndices, edges, totalFlightsProcessed;
      }
      var f := Parse(r).value;
      // The origin's node, then the destination's, each found or created.
      var o := OrInsert(nodes, nodeIndices, f.originId, f.origin, f.originCity);
      var d := OrInsert(o.0, o.1, f.destId, f.dest, f.destCity);
      // The edge, then the flight counted at the origin and in the total.
      var linked := edges + [(o.2, d.2)];
      var counted := CountFlight(d.0, o.2);
      FlightAfterLookups(nodes, nodeIndices, edges, ingested, f, o, d, counted, linked);
      nodes, nodeIndices, edges := counted, d.1, linked;
      totalFlightsProcessed := totalFlightsProcessed + 1;
      ingested := ingested + [f];
      i := i + 1;
    }
    assert records[..i] == records;
    err := None;
  }

  /**
   * `run` over the records the CSV reader yields: a record whose origin or
   * destination id does not parse ends the run with that error before anything is
   * written. Otherwise the airports with outbound flights are ranked through the heap.
   */
  method Run(records: seq<Record>) returns (res: Result<seq<RankLine>, ParseError>)
    ensures ParseAll(records).Failure? ==> res == Failure(ParseAll(records).error)
    ensures ParseAll(records).Success? ==> res.Success? && IsRanking(ParseAll(records).value, res.value)
  {
    var err, nodes, nodeIndices, edges, totalFlightsProcessed := Ingest(records);
    if err.Some? {
      return Failure(err.value);
    }
    var heap := FillHeap(nodes);
    var lines := WriteRanking(heap);
    ListingOfGraph(nodes, nodeIndices, edges, ParseAll(records).value, Shown(lines));
    res := Success(lines);
  }
}
