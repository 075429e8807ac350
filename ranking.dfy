/**
 * The ranking half of both programs: every node with outbound flights is pushed
 * on a `BinaryHeap<&Airport>`, which is then popped until empty. The heap is
 * modelled by its contents and the contract of `pop`; because `Ord for Airport`
 * is reversed, the greatest element is one with the fewest flights.
 */
module Ranking {
  import opened Wrappers
  import opened Airports
  import opened Flights
  import opened Graph

  /** `std::collections::BinaryHeap` of airports, seen through its contents (in no order). */
  class AirportHeap {
    var items: seq<Airport>

    constructor ()
      ensures items == []
    {
      items := [];
    }

    method Push(a: Airport)
      modifies this
      ensures items == old(items) + [a]
    {
      items := items + [a];
    }

    /**
     * `pop`: `None` on an empty heap; otherwise removes and returns an element that
     * no other element exceeds under `Cmp`. Which of several equal elements comes out
     * is not specified.
     */
    method Pop() returns (top: Option<Airport>)
      modifies this
      ensures PopsGreatest(old(items), top, items)
    {
      if items == [] {
        return None;
      }
      var best := IndexOfGreatest(items);
      top := Some(items[best]);
      assert items == items[..best] + [items[best]] + items[best + 1..];
      items := items[..best] + items[best + 1..];
    }
  }

  /** The contract of `BinaryHeap::pop` between the contents before and after. */
  ghost predicate PopsGreatest(before: seq<Airport>, top: Option<Airport>, after: seq<Airport>)
  {
    (before == [] ==> top == None && after == []) &&
    (before != [] ==>
      top.Some? && top.value in before &&
      (forall x :: x in before ==> Cmp(top.value, x) != Less) &&
      multiset(after) + multiset{top.value} == multiset(before) &&
      |after| + 1 == |before|)
  }

  /** The position of an element that no other element exceeds under `Cmp`. */
  method IndexOfGreatest(items: seq<Airport>) returns (best: nat)
    requires items != []
    ensures best < |items|
    ensures forall x :: x in items ==> Cmp(items[best], x) != Less
  {
    best := 0;
    var i := 1;
    while i < |items|
      invariant 0 <= best < i <= |items|
      invariant forall j :: 0 <= j < i ==> Cmp(items[best], items[j]) != Less
    {
      if Cmp(items[best], items[i]) == Less {
        best := i;
      }
      i := i + 1;
    }
  }

  /** The loop `for node_index in graph.node_indices()` that pushes every node with flights. */
  method FillHeap(nodes: seq<Airport>) returns (heap: AirportHeap)
    ensures fresh(heap)
    ensures heap.items == Positive(nodes)
  {
    heap := new AirportHeap();
    var i := 0;
    while i < |nodes|
      invariant 0 <= i <= |nodes|
      invariant heap.items == Positive(nodes[..i])
    {
      if nodes[i].flights > 0 {
        heap.Push(nodes[i]);
      }
      PositiveAppend(nodes[..i], nodes[i]);
      assert nodes[..i + 1] == nodes[..i] + [nodes[i]];
      i := i + 1;
    }
    assert nodes[..i] == nodes;
  }

  ghost predicate SortedByFlights(s: seq<Airport>)
  {
    forall i, j :: 0 <= i < j < |s| ==> s[i].flights <= s[j].flights
  }

  /**
   * The state of a `while let Some(airport) = heap.pop()` loop over the contents `all`:
   * `popped` came out sorted, `next` is the element just popped (none once the heap is
   * empty), no element still in the heap has fewer flights than `next`, and nothing
   * was lost or added.
   */
  ghost predicate Draining(popped: seq<Airport>, next: Option<Airport>, items: seq<Airport>, all: seq<Airport>)
  {
    SortedByFlights(popped) &&
    (next.None? ==> items == []) &&
    (next.Some? ==>
      (forall x :: x in items ==> next.value.flights <= x.flights) &&
      (forall k :: 0 <= k < |popped| ==> popped[k].flights <= next.value.flights)) &&
    multiset(popped) + multiset(items) + (if next.Some? then multiset{next.value} else multiset{}) == multiset(all)
  }

  /** The first pop starts the loop. */
  lemma DrainStart(all: seq<Airport>, top: Option<Airport>, after: seq<Airport>)
    requires PopsGreatest(all, top, after)
    ensures Draining([], top, after, all)
  {
    if top.Some? {
      forall x | x in after ensures top.value.flights <= x.flights {
        assert x in multiset(after);
        assert x in multiset(all);
        assert Cmp(top.value, x) != Less;
      }
    }
  }

  /** Emitting `next` and popping again keeps the loop's state. */
  lemma DrainStep(popped: seq<Airport>, next: Airport, items: seq<Airport>, top: Option<Airport>,
                  after: seq<Airport>, all: seq<Airport>)
    requires Draining(popped, Some(next), items, all)
    requires PopsGreatest(items, top, after)
    ensures Draining(popped + [next], top, after, all)
  {
    var popped' := popped + [next];
    assert multiset(popped') == multiset(popped) + multiset{next};
    if top.Some? {
      forall x | x in after ensures top.value.flights <= x.flights {
        assert x in multiset(after);
        assert x in multiset(items);
        assert Cmp(top.value, x) != Less;
      }
      assert next.flights <= top.value.flights;
    }
  }

  /** Once the heap is empty, the popped sequence is a sorted permutation of what was pushed. */
  lemma DrainEnd(popped: seq<Airport>, items: seq<Airport>, all: seq<Airport>)
    requires Draining(popped, None, items, all)
    ensures SortedByFlights(popped) && multiset(popped) == multiset(all)
  {
    assert items == [];
  }

  /**
   * What the pop sequence must be for the flights `fs`: the airports with outbound
   * flights, each exactly once, in non-decreasing order of flights, each carrying
   * its first-seen code and city and its outbound count.
   */
  ghost predicate IsListing(fs: seq<Flight>, s: seq<Airport>)
  {
    SortedByFlights(s) &&
    IdSet(s) == RankedIds(fs) && |s| == |RankedIds(fs)| &&
    forall a :: a in s ==>
      a.id in Ids(fs) && Attributes(a) == FirstMention(fs, a.id) && a.flights == Outbound(fs, a.id)
  }

  /** Draining the heap of a graph built from `fs` in sorted order lists exactly its ranked airports. */
  lemma ListingOfGraph(nodes: seq<Airport>, index: map<u32, nat>, edges: seq<(nat, nat)>,
                       fs: seq<Flight>, s: seq<Airport>)
    requires Models(nodes, index, edges, fs)
    requires multiset(s) == multiset(Positive(nodes)) && SortedByFlights(s)
    ensures IsListing(fs, s)
  {
    PositiveNodes(nodes, index, edges, fs);
    assert |s| == |multiset(s)| == |Positive(nodes)|;
    assert forall a :: a in s <==> a in Positive(nodes) by {
      forall a ensures a in s <==> a in Positive(nodes) {
        assert a in s <==> a in multiset(s);
        assert a in Positive(nodes) <==> a in multiset(Positive(nodes));
      }
    }
    assert IdSet(s) == IdSet(Positive(nodes));
  }
}
