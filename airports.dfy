/**
 * The airport node type, its reversed ordering and the flight records the
 * ingestion loop consumes. Shared by the library's `run` and the standalone
 * program's `main`, which declare the same `Airport` type and the same ordering.
 */
module Airports {
  import opened Wrappers

  /** Rust's `u32`: airport ids are parsed into it. */
  newtype u32 = x: int | 0 <= x < 0x1_0000_0000

  /** A node weight of the airport graph. `flights` counts the flights leaving it. */
  datatype Airport = Airport(id: u32, name: string, city: string, flights: nat)

  /** `Airport::new`: a fresh node carries no flights yet. */
  function NewAirport(id: u32, name: string, city: string): (a: Airport)
    ensures a.id == id && a.name == name && a.city == city
    ensures a.flights == 0
  {
    Airport(id, name, city, 0)
  }

  /** The display attributes of a node: its code and its city. */
  function Attributes(a: Airport): (string, string)
  {
    (a.name, a.city)
  }

  datatype Ordering = Less | Equal | Greater

  /** `u32::cmp` / `usize::cmp` on naturals. */
  function CompareNat(x: nat, y: nat): (o: Ordering)
    ensures o == Less <==> x < y
    ensures o == Greater <==> y < x
  {
    if x < y then Less else if x == y then Equal else Greater
  }

  /**
   * `Ord for Airport`, which compares the OTHER airport's flights with this one's:
   * an airport is greater than another exactly when it has fewer flights.
   */
  function Cmp(a: Airport, b: Airport): (o: Ordering)
    ensures o == Greater <==> a.flights < b.flights
    ensures o == Less <==> b.flights < a.flights
    ensures o == Equal <==> a.flights == b.flights
  {
    CompareNat(b.flights, a.flights)
  }

  /** `PartialOrd for Airport`: always defined, and agreeing with the reversed order. */
  function PartialCmp(a: Airport, b: Airport): (o: Option<Ordering>)
    ensures o.Some?
    ensures o.value == Greater <==> a.flights < b.flights
    ensures o.value == Less <==> b.flights < a.flights
  {
    Some(Cmp(a, b))
  }

  /**
   * One CSV row as the ingestion loop reads it: fields 2..7. The two id fields are
   * given as the outcome of `str::parse::<u32>`; fields 0 and 1 are never read.
   */
  datatype Record = Record(
    originId: Option<u32>, origin: string, originCity: string,
    destId: Option<u32>, dest: string, destCity: string)

  /** Which of the two `parse()?` calls failed. */
  datatype ParseError = InvalidOriginId | InvalidDestId

  /** A record whose two ids parsed. */
  datatype Flight = Flight(
    originId: u32, origin: string, originCity: string,
    destId: u32, dest: string, destCity: string)

  /** The two `parse()?` calls of one loop iteration; the origin id is parsed first. */
  function Parse(r: Record): (res: Result<Flight, ParseError>)
    ensures res.Success? <==> r.originId.Some? && r.destId.Some?
    ensures r.originId.None? ==> res == Failure(InvalidOriginId)
    ensures r.originId.Some? && r.destId.None? ==> res == Failure(InvalidDestId)
    ensures res.Success? ==> res.value.originId == r.originId.value && res.value.destId == r.destId.value
  {
    if r.originId.None? then Failure(InvalidOriginId)
    else if r.destId.None? then Failure(InvalidDestId)
    else Success(Flight(r.originId.value, r.origin, r.originCity, r.destId.value, r.dest, r.destCity))
  }

  /**
   * The whole record stream as the loop sees it: the first record that does not
   * parse aborts with its error, otherwise every record yields a flight.
   */
  function ParseAll(rs: seq<Record>): Result<seq<Flight>, ParseError>
  {
    if rs == [] then Success([])
    else
      match ParseAll(rs[..|rs| - 1])
      case Failure(e) => Failure(e)
      case Success(fs) =>
        match Parse(rs[|rs| - 1])
        case Failure(e) => Failure(e)
        case Success(f) => Success(fs + [f])
  }

  /** Parsing succeeds exactly when every record parses, and then keeps the records' order. */
  lemma {:induction false} ParseAllSuccess(rs: seq<Record>)
    ensures ParseAll(rs).Success? <==> forall k :: 0 <= k < |rs| ==> Parse(rs[k]).Success?
    ensures ParseAll(rs).Success? ==>
      |ParseAll(rs).value| == |rs| &&
      forall k :: 0 <= k < |rs| ==> ParseAll(rs).value[k] == Parse(rs[k]).value
  {
    if rs != [] {
      var init := rs[..|rs| - 1];
      ParseAllSuccess(init);
      assert forall k :: 0 <= k < |init| ==> init[k] == rs[k];
    }
  }

  /** A failure reports the error of the first record that does not parse. */
  lemma {:induction false} ParseAllFailure(rs: seq<Record>) returns (k: nat)
    requires ParseAll(rs).Failure?
    ensures k < |rs| && Parse(rs[k]).Failure?
    ensures ParseAll(rs).error == Parse(rs[k]).error
    ensures forall j :: 0 <= j < k ==> Parse(rs[j]).Success?
  {
    var init := rs[..|rs| - 1];
    if ParseAll(init).Failure? {
      k := ParseAllFailure(init);
    } else {
      ParseAllSuccess(init);
      k := |rs| - 1;
      assert forall j :: 0 <= j < k ==> init[j] == rs[j];
    }
  }

  /** Reading one more record: it is parsed only when the records before it all parsed. */
  lemma ParseAllStep(rs: seq<Record>, i: nat)
    requires i < |rs| && ParseAll(rs[..i]).Success?
    ensures Parse(rs[i]).Failure? ==> ParseAll(rs[..i + 1]) == Failure(Parse(rs[i]).error)
    ensures Parse(rs[i]).Success? ==> ParseAll(rs[..i + 1]) == Success(ParseAll(rs[..i]).value + [Parse(rs[i]).value])
  {
    assert rs[..i + 1][..i] == rs[..i];
  }

  /** Once a prefix of the stream fails, the rest of the stream is never looked at. */
  lemma {:induction false} ParseAllPrefixFailure(rs: seq<Record>, n: nat)
    requires n <= |rs| && ParseAll(rs[..n]).Failure?
    ensures ParseAll(rs) == ParseAll(rs[..n])
    decreases |rs| - n
  {
    if n < |rs| {
      assert rs[..n + 1][..n] == rs[..n];
      ParseAllPrefixFailure(rs, n + 1);
    } else {
      assert rs[..n] == rs;
    }
  }
}
