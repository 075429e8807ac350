/**
 * The five records of the library's test fixture, and what the model says the
 * ranking of them must be: four lines, the three airports with one flight each
 * first in some order, then SFO with two.
 */
module Scenario {
  import opened Wrappers
  import opened Airports
  import opened Flights
  import opened Graph
  import opened Ranking
  import opened Library

  function FixtureRecords(): seq<Record>
  {
    [ Record(Some(14831), "SJC", "San Jose, CA", Some(12982), "LIH", "Lihue, HI"),
      Record(Some(14771), "SFO", "San Francisco, CA", Some(11298), "DFW", "Dallas/Fort Worth, TX"),
      Record(Some(13930), "ORD", "Chicago, IL", Some(14908), "SNA", "Santa Ana, CA"),
      Record(Some(13796), "OAK", "Oakland, CA", Some(12191), "HOU", "Houston, TX"),
      Record(Some(14771), "SFO", "San Francisco, CA", Some(11292), "DEN", "Denver, CO") ]
  }

  function FixtureFlights(): seq<Flight>
  {
    [ Flight(14831, "SJC", "San Jose, CA", 12982, "LIH", "Lihue, HI"),
      Flight(14771, "SFO", "San Francisco, CA", 11298, "DFW", "Dallas/Fort Worth, TX"),
      Flight(13930, "ORD", "Chicago, IL", 14908, "SNA", "Santa Ana, CA"),
      Flight(13796, "OAK", "Oakland, CA", 12191, "HOU", "Houston, TX"),
      Flight(14771, "SFO", "San Francisco, CA", 11292, "DEN", "Denver, CO") ]
  }

  /** Every id of the fixture parses. */
  lemma FixtureParses()
    ensures ParseAll(FixtureRecords()) == Success(FixtureFlights())
  {
    var rs, fs := FixtureRecords(), FixtureFlights();
    forall k | 0 <= k < |rs| ensures Parse(rs[k]).Success? && Parse(rs[k]).value == fs[k] {
    }
    ParseAllSuccess(rs);
    assert ParseAll(rs).value == fs;
  }

  /** The outbound counts of the fixture: SFO has two flights, SJC, ORD and OAK one each. */
  lemma FixtureOutbound(id: u32)
    ensures Outbound(FixtureFlights(), id) ==
      if id == 14771 then 2 else if id in {14831, 13930, 13796} then 1 else 0
  {
    var fs := FixtureFlights();
    assert Outbound([], id) == 0;
    for k := 0 to 5
      invariant Outbound(fs[..k], id) ==
        (if k > 0 && fs[0].originId == id then 1 else 0) + (if k > 1 && fs[1].originId == id then 1 else 0) +
        (if k > 2 && fs[2].originId == id then 1 else 0) + (if k > 3 && fs[3].originId == id then 1 else 0) +
        (if k > 4 && fs[4].originId == id then 1 else 0)
    {
      OutboundAppend(fs[..k], fs[k], id);
      assert fs[..k + 1] == fs[..k] + [fs[k]];
    }
    assert fs[..5] == fs;
  }

  /** The ranked airports of the fixture. */
  lemma FixtureRanked()
    ensures RankedIds(FixtureFlights()) == {14831, 14771, 13930, 13796}
  {
    var fs := FixtureFlights();
    forall id: u32 ensures id in RankedIds(fs) <==> id in {14831, 14771, 13930, 13796} {
      FixtureOutbound(id);
      IdsMentioned(fs, id);
      if id in {14831, 14771, 13930, 13796} {
        assert fs[0].originId == 14831 && fs[1].originId == 14771 && fs[2].originId == 13930 && fs[3].originId == 13796;
      }
    }
  }

  /**
   * An airport first named as the origin of record `k` keeps that record's origin
   * code and city.
   */
  lemma FixtureFirstOrigin(k: nat, id: u32)
    requires k < 5 && FixtureFlights()[k].originId == id
    requires forall j :: 0 <= j < k ==> FixtureFlights()[j].originId != id && FixtureFlights()[j].destId != id
    ensures id in Ids(FixtureFlights())
    ensures FirstMention(FixtureFlights(), id) == (FixtureFlights()[k].origin, FixtureFlights()[k].originCity)
  {
    var fs := FixtureFlights();
    IdsMentioned(fs, id);
    var i := FirstMentionIsEarliest(fs, id);
  }

  /** SFO is first named as the origin of the second record, so its node keeps that code and city. */
  lemma FixtureSFO()
    ensures 14771 in Ids(FixtureFlights())
    ensures FirstMention(FixtureFlights(), 14771) == ("SFO", "San Francisco, CA")
  {
    FixtureFirstOrigin(1, 14771);
  }

  /** A sequence of airports has at most as many ids as elements. */
  lemma {:induction false} IdSetSize(s: seq<Airport>)
    ensures |IdSet(s)| <= |s|
  {
    if s != [] {
      var init, last := s[..|s| - 1], s[|s| - 1];
      IdSetSize(init);
      assert s == init + [last];
      assert IdSet(s) == IdSet(init) + {last.id};
    }
  }

  /** Two elements with the same id leave fewer ids than elements. */
  lemma SharedIdSize(s: seq<Airport>, i: nat, j: nat)
    requires i < j < |s| && s[i].id == s[j].id
    ensures |IdSet(s)| < |s|
  {
    var rest := s[..i] + s[i + 1..];
    IdSetSize(rest);
    assert s == s[..i] + [s[i]] + s[i + 1..];
    assert s[j] in rest by {
      assert rest[j - 1] == s[j];
    }
    assert IdSet(s) == IdSet(rest);
  }

  /**
   * An airport of the fixture with its first-seen code and city and its outbound
   * count is SFO with two flights, or SJC, ORD or OAK with one.
   */
  lemma FixtureNode(a: Airport)
    requires a.id in RankedIds(FixtureFlights()) && a.id in Ids(FixtureFlights())
    requires Attributes(a) == FirstMention(FixtureFlights(), a.id)
    requires a.flights == Outbound(FixtureFlights(), a.id)
    ensures a.id == 14771 ==> a == Airport(14771, "SFO", "San Francisco, CA", 2)
    ensures a.id != 14771 ==>
      a == Airport(14831, "SJC", "San Jose, CA", 1) ||
      a == Airport(13930, "ORD", "Chicago, IL", 1) ||
      a == Airport(13796, "OAK", "Oakland, CA", 1)
  {
    FixtureRanked();
    FixtureOutbound(a.id);
    if a.id == 14831 {
      FixtureFirstOrigin(0, 14831);
    } else if a.id == 14771 {
      FixtureFirstOrigin(1, 14771);
    } else if a.id == 13930 {
      FixtureFirstOrigin(2, 13930);
    } else {
      FixtureFirstOrigin(3, 13796);
    }
  }

  /**
   * A listing of the fixture: four airports with distinct ids, SFO with two flights,
   * and SJC, ORD and OAK with one each, every one with the code and city of its
   * first record.
   */
  lemma FixtureListing(s: seq<Airport>)
    requires IsListing(FixtureFlights(), s)
    ensures |s| == 4 && 14771 in IdSet(s)
    ensures forall i, j :: 0 <= i < j < |s| ==> s[i].id != s[j].id
    ensures forall a :: a in s && a.id == 14771 ==> a == Airport(14771, "SFO", "San Francisco, CA", 2)
    ensures forall a :: a in s && a.id != 14771 ==>
      a == Airport(14831, "SJC", "San Jose, CA", 1) ||
      a == Airport(13930, "ORD", "Chicago, IL", 1) ||
      a == Airport(13796, "OAK", "Oakland, CA", 1)
  {
    FixtureRanked();
    forall a | a in s
      ensures a.id == 14771 ==> a == Airport(14771, "SFO", "San Francisco, CA", 2)
      ensures a.id != 14771 ==>
        a == Airport(14831, "SJC", "San Jose, CA", 1) ||
        a == Airport(13930, "ORD", "Chicago, IL", 1) ||
        a == Airport(13796, "OAK", "Oakland, CA", 1)
    {
      assert a.id in IdSet(s);
      FixtureNode(a);
    }
    forall i, j | 0 <= i < j < |s| ensures s[i].id != s[j].id {
      if s[i].id == s[j].id {
        SharedIdSize(s, i, j);
      }
    }
  }

  /** Three airports with distinct ids, each SJC, ORD or OAK, are those three. */
  lemma ThreeOneFlight(x: Airport, y: Airport, z: Airport)
    requires x.id != y.id && x.id != z.id && y.id != z.id
    requires forall a :: a in [x, y, z] ==>
      a == Airport(14831, "SJC", "San Jose, CA", 1) ||
      a == Airport(13930, "ORD", "Chicago, IL", 1) ||
      a == Airport(13796, "OAK", "Oakland, CA", 1)
    ensures multiset{x, y, z} ==
      multiset{Airport(14831, "SJC", "San Jose, CA", 1), Airport(13930, "ORD", "Chicago, IL", 1),
               Airport(13796, "OAK", "Oakland, CA", 1)}
  {
    assert x in [x, y, z] && y in [x, y, z] && z in [x, y, z];
  }

  /**
   * A sorted sequence of the four airports a listing of the fixture holds: SJC, ORD
   * and OAK with one flight each in some order, then SFO with two.
   */
  lemma FixtureOrder(s: seq<Airport>)
    requires SortedByFlights(s)
    requires |s| == 4 && 14771 in IdSet(s)
    requires forall i, j :: 0 <= i < j < |s| ==> s[i].id != s[j].id
    requires forall a :: a in s && a.id == 14771 ==> a == Airport(14771, "SFO", "San Francisco, CA", 2)
    requires forall a :: a in s && a.id != 14771 ==>
      a == Airport(14831, "SJC", "San Jose, CA", 1) ||
      a == Airport(13930, "ORD", "Chicago, IL", 1) ||
      a == Airport(13796, "OAK", "Oakland, CA", 1)
    ensures |s| == 4
    ensures s[0].flights == 1 && s[1].flights == 1 && s[2].flights == 1
    ensures multiset{s[0], s[1], s[2]} ==
      multiset{Airport(14831, "SJC", "San Jose, CA", 1), Airport(13930, "ORD", "Chicago, IL", 1),
               Airport(13796, "OAK", "Oakland, CA", 1)}
    ensures s[3] == Airport(14771, "SFO", "San Francisco, CA", 2)
  {
    var sfo :| sfo in s && sfo.id == 14771;
    var j :| 0 <= j < 4 && s[j] == sfo;
    // No airport after SFO has fewer flights, and only SFO has two.
    assert s[j].flights <= s[3].flights;
    assert s[3] in s;
    assert s[3].id == 14771;
    assert s[0] in s && s[1] in s && s[2] in s;
    assert s[0].id != 14771 && s[1].id != 14771 && s[2].id != 14771;
    ThreeOneFlight(s[0], s[1], s[2]);
  }

  /**
   * The ranking of the fixture, as the test expects it up to the order of the
   * airports with equal flights: four numbered lines, the first three showing SJC,
   * ORD and OAK with one flight each, and SFO last with two.
   */
  lemma FixtureRanking(lines: seq<RankLine>)
    requires IsRanking(FixtureFlights(), lines)
    ensures |lines| == 4
    ensures forall k :: 0 <= k < 3 ==> lines[k].airport.flights == 1 && lines[k].node == k + 1
    ensures multiset{lines[0].airport, lines[1].airport, lines[2].airport} ==
      multiset{Airport(14831, "SJC", "San Jose, CA", 1), Airport(13930, "ORD", "Chicago, IL", 1),
               Airport(13796, "OAK", "Oakland, CA", 1)}
    ensures lines[3] == RankLine(4, Airport(14771, "SFO", "San Francisco, CA", 2))
  {
    var s := Shown(lines);
    FixtureListing(s);
    FixtureOrder(s);
    assert lines[3].airport == s[3] && lines[3].node == 4;
  }

  /** `run` on the fixture: the ranking the test checks, up to the order of equal-flight airports. */
  method FixtureRun() returns (lines: seq<RankLine>)
    ensures |lines| == 4
    ensures forall k :: 0 <= k < 3 ==> lines[k].airport.flights == 1 && lines[k].node == k + 1
    ensures multiset{lines[0].airport, lines[1].airport, lines[2].airport} ==
      multiset{Airport(14831, "SJC", "San Jose, CA", 1), Airport(13930, "ORD", "Chicago, IL", 1),
               Airport(13796, "OAK", "Oakland, CA", 1)}
    ensures lines[3] == RankLine(4, Airport(14771, "SFO", "San Francisco, CA", 2))
  {
    FixtureParses();
    var res := Run(FixtureRecords());
    lines := res.value;
    FixtureRanking(lines);
  }
}
