# Airport flight ranking

The crate reads a CSV of flight records. Each row names an origin airport (id, code, city) and a destination airport.

While reading, it builds a directed graph with one node per airport id and one edge per record. It also counts the flights leaving each airport and, in the library, the total number of flights processed. It then pushes every airport with at least one outbound flight onto a `BinaryHeap` and pops them into a ranking.

`Ord for Airport` compares the other airport's flights with this one's. The max-heap therefore pops the airport with the FEWEST flights first, so the ranking is non-decreasing in flights. The test fixture expects this: the three one-flight airports come first, then SFO with two.

Two copies of the logic are modelled:

- `run` in `src/lib.rs`, the library function the binary and the test call. It writes numbered lines `Node: k, Name, City, Degree`. Modelled by module `Library`.
- `main` in `project.rs`, a second, standalone copy. It keeps no total, counts the flight at the origin before it looks up the destination, and prints `Airport ID, Name, City, Flights` lines without numbers. Modelled by module `Standalone`.

Shared modules:

- `Wrappers`: `Option` and `Result`.
- `Airports`: the `Airport` type, `Airport::new`, the two reversed orderings, and a record with its two `u32` id parses.
- `Flights`: what a sequence of parsed flights determines. This is the specification the graph is proved against:
  - the ids it names;
  - the code and city each id is first named with (the origin side of a record before its destination side);
  - the number of flights leaving each id.
- `Graph`: the graph as values.
  - The node weights are a `seq<Airport>` indexed by `NodeIndex`. `node_indices` is a `map<u32, nat>`. The edges are a `seq<(nat, nat)>`.
  - The predicate `Models` says that these hold the graph built from a sequence of flights.
  - The lemmas show that each iteration of either record loop keeps `Models`.
- `Ranking`:
  - the heap as a class `AirportHeap`, whose `pop` returns an element no other element exceeds under `Cmp`;
  - the push loop;
  - the drain-loop invariant;
  - the specification `IsListing` of the pop sequence.
- `Scenario`: the five records of `tests/test.rs`, and the ranking the model forces for them.

`Library.Ingest` and `Standalone.IngestMain` are the record loops of `run` and `main`, as imperative methods. Their locals are those of the source: the node weights, `node_indices`, the edges, and the total. The loop updates them and carries `Models` as its invariant. `Library.Run` and `Standalone.RunMain` run the loop; then `FillHeap` pushes the nodes onto an `AirportHeap` object, and `WriteRanking` or `PrintRanking` pops it until it is empty.

## Model

| member | source | states |
|---|---|---|
| Airports.NewAirport | src/lib.rs:16-24 | a new node carries the given id, code and city, and 0 flights |
| Airports.Cmp | src/lib.rs:26-29 | reversed order: `a` is greater than `b` exactly when it has fewer flights, less exactly when it has more, and equal exactly when the counts are equal |
| Airports.PartialCmp | src/lib.rs:31-35 | always `Some`, agreeing with the reversed order in both directions |
| Airports.Parse | src/lib.rs:45-50 | the origin id is parsed first. A failed origin gives `InvalidOriginId`. Otherwise a failed destination gives `InvalidDestId`. Success holds exactly when both parse, and then carries both ids |
| Airports.ParseAllSuccess | src/lib.rs:42-50 | the record stream parses exactly when every record parses, and then yields one flight per record, in order |
| Airports.ParseAllFailure | src/lib.rs:42-50 | a failure carries the error of the first record that does not parse; every earlier record parses |
| Airports.ParseAllStep | src/lib.rs:42-50 | reading one more record after a clean prefix: its failure becomes the stream's error, or its flight is appended |
| Airports.ParseAllPrefixFailure | src/lib.rs:42-45 | once a prefix fails, later records do not change the outcome (the `?` returns at once) |
| Flights.MentionsAt | src/lib.rs:53-62 | record `k` is met as mention `2k` (its origin) and mention `2k+1` (its destination) |
| Flights.FirstSeenIsEarliest | src/lib.rs:53-62 | the attributes recorded for an id are those of the earliest mention of it |
| Flights.FirstMentionIsEarliest | src/lib.rs:53-62 | the code and city kept for an id are from the earliest flight naming it, and from its origin side when that flight names the id twice; no earlier flight names it |
| Flights.IdsMentioned | src/lib.rs:53-62 | an id has a node exactly when some flight names it as origin or destination |
| Flights.IdsAppend | src/lib.rs:53-62 | one more flight adds exactly its two ids |
| Flights.OutboundAppend | src/lib.rs:65-70 | one more flight raises exactly its origin's outbound count, by one |
| Flights.OutboundZero | src/lib.rs:65-70 | an airport's outbound count is 0 exactly when no flight leaves it |
| Flights.OutboundUnmentioned | src/lib.rs:22 | an airport no flight names has no outbound flights |
| Graph.IndexedDistinct | src/lib.rs:53-62 | when `node_indices` and the nodes agree, no two nodes share an id |
| Graph.OrInsert | src/lib.rs:53-62 | `entry().or_insert_with`: the result maps `id` to the returned index. A known id leaves nodes and map unchanged. An unknown id appends `Airport::new` as the last node and maps `id` to it |
| Graph.OrInsertIndexed | src/lib.rs:53-62 | a lookup or creation keeps `node_indices` and the nodes in agreement |
| Graph.CountFlight | src/lib.rs:65-67 | `node_weight_mut(i)` then `flights += 1`: node `i` gains one flight and keeps its id, code and city; all other nodes are unchanged |
| Graph.ModelsEmpty | src/lib.rs:39-41 | the empty graph and map model no flights |
| Graph.NamedAfterInsert | src/lib.rs:53-62 | after a lookup, the nodes carry the first-seen attributes of one more mention; an existing node is never renamed |
| Graph.IndexedAfterCount | src/lib.rs:65-67 | counting a flight moves no node |
| Graph.NamedAfterCount | src/lib.rs:65-67 | counting a flight changes no node's code or city |
| Graph.CountedAfterInsert | src/lib.rs:22 | a node created for an airport no flight leaves is correctly counted at 0 |
| Graph.CountedAfterCount | src/lib.rs:65-67 | counting a flight at its origin's node makes every counter equal the outbound count of one more flight |
| Graph.LinkedAfterFlight | src/lib.rs:64 | the edge added for a flight joins its origin's and destination's nodes; earlier edges keep their endpoints |
| Graph.BothLookups | src/lib.rs:53-62 | the two lookups of a record record its two mentions and keep the counters and their total |
| Graph.CountAtOrigin | src/lib.rs:65-68 | counting at the origin's node completes the model of one more flight and raises the total by one |
| Graph.FlightAfterLookups | src/lib.rs:53-70 | one iteration of `run`'s loop (both lookups, one edge, one count at the origin) turns a model of `fs` into a model of `fs + [f]`, raises the total by one, and gives the edge the right endpoints |
| Graph.FlightBeforeDestLookup | project.rs:48-63 | one iteration of `main`'s loop (origin lookup, count, destination lookup, edge) turns a model of `fs` into a model of `fs + [f]` |
| Graph.ModelsGraph | src/lib.rs:53-64 | a built graph has exactly one node per id named, at `node_indices[id]` with that id, the first-seen code and city and the outbound count; edges are exactly as many as flights |
| Graph.OutDegreeLinked | src/lib.rs:64-67 | the edges leaving an airport's node are exactly the flights leaving the airport |
| Graph.EdgesLeaving | src/lib.rs:64-67 | every node's `flights` equals the number of edges leaving it |
| Graph.SumFlightsAppend | src/lib.rs:56 | a node added to the graph adds its counter to the total |
| Graph.SumAfterInsert | src/lib.rs:53-62 | creating a node, at 0 flights, keeps the total |
| Graph.SumAfterCount | src/lib.rs:65-68 | counting a flight raises the sum of the counters by one, as `total_flights_processed += 1` does |
| Graph.PositiveMembers | src/lib.rs:74-81 | the heap is given exactly the nodes with `flights > 0` |
| Graph.PositiveAppend | src/lib.rs:75-80 | visiting one more node pushes it exactly when it has flights |
| Graph.DistinctIdsCount | src/lib.rs:53-62 | nodes with distinct ids have as many ids as nodes |
| Graph.PositiveDistinct | src/lib.rs:74-81 | the filtered nodes still have distinct ids |
| Graph.PositiveNode | src/lib.rs:74-81 | a pushed airport has outbound flights, its first-seen attributes and its outbound count |
| Graph.RankedNode | src/lib.rs:74-81 | every airport with outbound flights is pushed |
| Graph.PositiveNodes | src/lib.rs:74-81 | the pushed airports are exactly the airports with outbound flights, once each, with first-seen attributes and outbound counts |
| Ranking.AirportHeap.constructor | src/lib.rs:74 | `BinaryHeap::new()` is empty |
| Ranking.AirportHeap.Push | src/lib.rs:78 | `push` adds the airport to the contents |
| Ranking.AirportHeap.Pop | src/lib.rs:84 | `pop` gives `None` on an empty heap. Otherwise it removes one occurrence of an element that no element exceeds under the reversed `Cmp` |
| Ranking.IndexOfGreatest | src/lib.rs:84 | the element `pop` returns: a position whose element no element exceeds under the reversed `Cmp`, i.e. one with the fewest flights |
| Ranking.FillHeap | src/lib.rs:74-81 | the push loop leaves a fresh heap holding exactly the nodes with flights |
| Ranking.DrainStart | src/lib.rs:84 | the first pop establishes the drain invariant |
| Ranking.DrainStep | src/lib.rs:84-91 | emitting the popped airport and popping again keeps the popped sequence sorted, with no airport lost |
| Ranking.DrainEnd | src/lib.rs:84 | the sequence popped from the emptied heap is sorted by flights and a permutation of the heap's contents |
| Ranking.ListingOfGraph | src/lib.rs:74-91 | any sorted permutation of the pushed nodes of a graph built from `fs` lists exactly its airports with outbound flights, each once, non-decreasing in flights, with first-seen attributes and outbound counts |
| Library.NumberedAppend | src/lib.rs:83-90 | writing the next airport with the current `node` keeps the lines numbered from 1 |
| Library.NumberedShown | src/lib.rs:83-90 | numbered lines show exactly the popped airports, line `k` with number `k + 1` |
| Library.WriteRanking | src/lib.rs:83-91 | the pop loop writes lines numbered from 1, non-decreasing in flights, showing each airport of the heap exactly once (a permutation of its contents), and leaves the heap empty |
| Library.Ingest | src/lib.rs:39-71 | the record loop stops at the first record that does not parse, with its error. The graph and the total are then those of the records before it: both ids are parsed before anything changes. Otherwise the graph models the parsed flights: one node per id, first-seen code and city, outbound counts, one edge per record. `total_flights_processed` equals the number of records and the sum of the counters |
| Library.Run | src/lib.rs:36-94 | on a record that does not parse, `run` fails with that record's error and writes nothing. Otherwise it writes the ranking of the flights: lines numbered from 1, one per airport with outbound flights, each with its first-seen code and city and its outbound count, non-decreasing in flights |
| Standalone.PrintRanking | project.rs:73-79 | the pop loop prints each airport of the heap exactly once, non-decreasing in flights, and leaves the heap empty |
| Standalone.IngestMain | project.rs:38-64 | the record loop stops at the first record that does not parse, with its error. The graph then models exactly the records before it, untouched by the failing one, because both ids are parsed first (project.rs:42,45). Otherwise the graph models the parsed flights |
| Standalone.RunMain | project.rs:35-81 | on a record that does not parse, `main` fails with that error and prints nothing. Otherwise it prints each airport with outbound flights once, with its first-seen code and city and its outbound count, non-decreasing in flights |
| Standalone.SelfLoop | project.rs:48-63 | a record whose origin is its destination creates at most one node; counting happens once there, and the edge is a loop on that node |
| Scenario.FixtureParses | tests/test.rs:10-15 | the fixture's five rows all parse |
| Scenario.FixtureOutbound | tests/test.rs:10-15 | in the fixture SFO has two outbound flights, SJC, ORD and OAK one each, every other id none |
| Scenario.FixtureRanked | tests/test.rs:38-41 | the fixture ranks exactly SJC, SFO, ORD and OAK |
| Scenario.FixtureFirstOrigin | tests/test.rs:11-15 | an airport first named as the origin of fixture record `k` keeps that record's code and city |
| Scenario.FixtureSFO | tests/test.rs:12 | SFO keeps the code and city of its first record |
| Scenario.FixtureNode | tests/test.rs:38-41 | a fixture node with its first-seen code and city and its outbound count is SFO, San Francisco, CA with 2 flights, or SJC, San Jose, CA, ORD, Chicago, IL or OAK, Oakland, CA with 1 |
| Scenario.FixtureListing | tests/test.rs:38-41 | any listing of the fixture has four airports with distinct ids: SFO, San Francisco, CA with two flights, and each other one SJC, ORD or OAK with its city and one flight |
| Scenario.ThreeOneFlight | tests/test.rs:38-40 | three airports with distinct ids, each SJC, ORD or OAK with one flight, are exactly those three |
| Scenario.FixtureOrder | tests/test.rs:38-41 | sorted by flights, those four airports are SJC, ORD and OAK in some order, then SFO |
| Scenario.FixtureRanking | tests/test.rs:36-41 | any report of the fixture has four lines numbered 1 to 4. Lines 1-3 show SJC (San Jose, CA), ORD (Chicago, IL) and OAK (Oakland, CA), each with degree 1, in some order. Line 4 is `Node: 4`, SFO, San Francisco, CA, degree 2 |
| Scenario.FixtureRun | tests/test.rs:29-41 | `run` on the fixture writes those four lines |

## Left out

- CSV reading, the `CSV_FILE_PATH` lookup and the default path (src/lib.rs:37-38, project.rs:36-37) are I/O. The model takes the sequence of records the reader yields. A reader error from `result?` is not modelled.
- `str::parse::<u32>` is taken as its outcome: each id field of a `Record` is an `Option<u32>`. The two `?` errors are modelled as `InvalidOriginId` and `InvalidDestId`, not as the boxed error values.
- Indexing a row with fewer than eight fields panics in Rust. The model's records always have all six fields it reads.
- The `println!` diagnostics are side output and are not modelled. This covers the processing trace, the "Total flights processed" line, and project.rs's header and body lines, which are modelled as the printed airports.
- The `write!` text formatting and write errors are not modelled. `run`'s header line is not modelled, and each ranking line is a `RankLine(node, airport)`.
- Integer widths are not modelled: the counters are unbounded naturals here.
  - `flights` is `usize`.
  - `total_flights_processed` (src/lib.rs:41) and `node` (src/lib.rs:83) have no type annotation, so Rust makes them `i32`. Past 2^31 - 1 they panic in a debug build and wrap to negative values in a release build.
  - petgraph's default `u32` index makes `add_node` and `add_edge` (src/lib.rs:56, 61, 64) panic once the graph has about 2^32 nodes or edges, i.e. after about that many records.
- petgraph and `BinaryHeap` internals are not re-verified.
  - The graph's nodes are a sequence, and `NodeIndex` is their position.
  - `node_weight_mut` and `node_weight` are modelled as always finding the node, which the model proves in range.
  - The heap is its contents plus the `pop` contract. Which of several equal-flight airports pops first is not specified, as in Rust.
- `Ranking.SortedByFlights` compares flights only. The pop order among airports with equal flights is left open, and so is the position of each.
- Scenario.FixtureRanking: states which three airports lines 1-3 show, but not the order SJC, ORD, OAK that the test expects. That order depends on `BinaryHeap`'s internal layout, which the model leaves open.
- The test's expected passengers, averages, destination counts, top destination cities, top routes and total lines (tests/test.rs:38-56) are not produced by `run` and are not modelled.
- src/main.rs only calls `run` and prints its error, and is not modelled. Of tests/test.rs, only the fixture and the node lines are modelled.
- The graph is not modelled as an object. It is the locals of the record-loop method, updated by each iteration and returned to the ranking. In the source these are also locals of `run` and `main`, so nothing aliases them.
