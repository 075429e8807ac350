/**
 * What a sequence of parsed flights determines: which airports it names, the code
 * and city each airport is first named with, and how many flights leave each one.
 * The graph both programs build is specified by these functions.
 */
module Flights {
  import opened Airports

  /** One airport named by a flight: its id, code and city. */
  datatype Mention = Mention(id: u32, name: string, city: string)

  function OriginMention(f: Flight): Mention
  {
    Mention(f.originId, f.origin, f.originCity)
  }

  function DestMention(f: Flight): Mention
  {
    Mention(f.destId, f.dest, f.destCity)
  }

  /** The airports named by the flights in the order the loop meets them: origin, then destination. */
  function Mentions(fs: seq<Flight>): (ms: seq<Mention>)
    ensures |ms| == 2 * |fs|
  {
    if fs == [] then []
    else Mentions(fs[..|fs| - 1]) + [OriginMention(fs[|fs| - 1]), DestMention(fs[|fs| - 1])]
  }

  lemma MentionsAppend(fs: seq<Flight>, f: Flight)
    ensures Mentions(fs + [f]) == Mentions(fs) + [OriginMention(f)] + [DestMention(f)]
  {
    assert (fs + [f])[..|fs|] == fs;
    assert [OriginMention(f), DestMention(f)] == [OriginMention(f)] + [DestMention(f)];
  }

  /** Flight `k` contributes mentions `2k` (its origin) and `2k + 1` (its destination). */
  lemma {:induction false} MentionsAt(fs: seq<Flight>, k: nat)
    requires k < |fs|
    ensures Mentions(fs)[2 * k] == OriginMention(fs[k])
    ensures Mentions(fs)[2 * k + 1] == DestMention(fs[k])
  {
    var init := fs[..|fs| - 1];
    if k < |init| {
      MentionsAt(init, k);
      assert init[k] == fs[k];
    }
  }

  /** The ids of a sequence of mentions. */
  function Seen(ms: seq<Mention>): set<u32>
  {
    set m | m in ms :: m.id
  }

  /**
   * The code and city of the first mention of `id`: the earlier mentions decide when
   * any of them names `id`, and otherwise the last mention is the first one.
   */
  function FirstSeen(ms: seq<Mention>, id: u32): (string, string)
    requires id in Seen(ms)
  {
    var init := ms[..|ms| - 1];
    if id in Seen(init) then FirstSeen(init, id) else (ms[|ms| - 1].name, ms[|ms| - 1].city)
  }

  /** `FirstSeen` gives the attributes of the earliest mention of the id. */
  lemma {:induction false} FirstSeenIsEarliest(ms: seq<Mention>, id: u32) returns (k: nat)
    requires id in Seen(ms)
    ensures k < |ms| && ms[k].id == id
    ensures forall j :: 0 <= j < k ==> ms[j].id != id
    ensures FirstSeen(ms, id) == (ms[k].name, ms[k].city)
  {
    var init := ms[..|ms| - 1];
    if id in Seen(init) {
      k := FirstSeenIsEarliest(init, id);
      assert ms[k] == init[k];
      assert forall j :: 0 <= j < k ==> ms[j] == init[j];
    } else {
      k := |ms| - 1;
      var m :| m in ms && m.id == id;
      assert m !in init;
      forall j | 0 <= j < k ensures ms[j].id != id {
        assert ms[j] in init;
      }
    }
  }

  /** The ids named by the flights, as origin or destination: the airports of the graph. */
  function Ids(fs: seq<Flight>): set<u32>
  {
    Seen(Mentions(fs))
  }

  /** An id is in `Ids` exactly when some flight names it as origin or destination. */
  lemma IdsMentioned(fs: seq<Flight>, id: u32)
    ensures id in Ids(fs) <==> exists k :: 0 <= k < |fs| && (fs[k].originId == id || fs[k].destId == id)
  {
    var ms := Mentions(fs);
    if id in Ids(fs) {
      var m :| m in ms && m.id == id;
      var i :| 0 <= i < |ms| && ms[i] == m;
      MentionsAt(fs, i / 2);
      assert i == 2 * (i / 2) || i == 2 * (i / 2) + 1;
    }
    if exists k :: 0 <= k < |fs| && (fs[k].originId == id || fs[k].destId == id) {
      var k :| 0 <= k < |fs| && (fs[k].originId == id || fs[k].destId == id);
      MentionsAt(fs, k);
      assert ms[2 * k] in ms && ms[2 * k + 1] in ms;
    }
  }

  lemma IdsAppend(fs: seq<Flight>, f: Flight)
    ensures Ids(fs + [f]) == Ids(fs) + {f.originId, f.destId}
  {
    MentionsAppend(fs, f);
    var ms := Mentions(fs);
    assert Seen(ms + [OriginMention(f), DestMention(f)]) == Seen(ms) + {f.originId, f.destId} by {
      var ms' := ms + [OriginMention(f), DestMention(f)];
      assert ms'[|ms|] == OriginMention(f) && ms'[|ms| + 1] == DestMention(f);
      forall m | m in ms' ensures m in ms || m == OriginMention(f) || m == DestMention(f) {
        var i :| 0 <= i < |ms'| && ms'[i] == m;
        if i < |ms| {
          assert ms[i] == m;
        }
      }
    }
  }

  /** The code and city of the first flight naming `id`, the origin side before the destination. */
  function FirstMention(fs: seq<Flight>, id: u32): (string, string)
    requires id in Ids(fs)
  {
    FirstSeen(Mentions(fs), id)
  }

  /**
   * `FirstMention` takes the attributes of the earliest flight naming the id, and of
   * its origin side when that flight names it as both origin and destination.
   */
  lemma FirstMentionIsEarliest(fs: seq<Flight>, id: u32) returns (k: nat)
    requires id in Ids(fs)
    ensures k < |fs| && (fs[k].originId == id || fs[k].destId == id)
    ensures forall j :: 0 <= j < k ==> fs[j].originId != id && fs[j].destId != id
    ensures FirstMention(fs, id) ==
      if fs[k].originId == id then (fs[k].origin, fs[k].originCity) else (fs[k].dest, fs[k].destCity)
  {
    var ms := Mentions(fs);
    var i := FirstSeenIsEarliest(ms, id);
    k := i / 2;
    MentionsAt(fs, k);
    assert i == 2 * k || i == 2 * k + 1;
    forall j | 0 <= j < k ensures fs[j].originId != id && fs[j].destId != id {
      MentionsAt(fs, j);
      assert ms[2 * j].id != id && ms[2 * j + 1].id != id;
    }
    if i == 2 * k + 1 {
      assert ms[2 * k].id != id;
    }
  }

  /** The number of flights leaving `id`. */
  function Outbound(fs: seq<Flight>, id: u32): nat
  {
    if fs == [] then 0
    else Outbound(fs[..|fs| - 1], id) + if fs[|fs| - 1].originId == id then 1 else 0
  }

  lemma OutboundAppend(fs: seq<Flight>, f: Flight, id: u32)
    ensures Outbound(fs + [f], id) == Outbound(fs, id) + if f.originId == id then 1 else 0
  {
    assert (fs + [f])[..|fs|] == fs;
  }

  /** An airport has no outbound flights exactly when no flight leaves it. */
  lemma {:induction false} OutboundZero(fs: seq<Flight>, id: u32)
    ensures Outbound(fs, id) == 0 <==> forall k :: 0 <= k < |fs| ==> fs[k].originId != id
  {
    if fs != [] {
      var init := fs[..|fs| - 1];
      OutboundZero(init, id);
      assert forall k :: 0 <= k < |init| ==> init[k] == fs[k];
    }
  }

  /** An airport no flight names has no outbound flights. */
  lemma OutboundUnmentioned(fs: seq<Flight>, id: u32)
    requires id !in Ids(fs)
    ensures Outbound(fs, id) == 0
  {
    IdsMentioned(fs, id);
    OutboundZero(fs, id);
  }

  /** The ids with at least one outbound flight: the airports that get ranked. */
  ghost function RankedIds(fs: seq<Flight>): set<u32>
  {
    set id | id in Ids(fs) && Outbound(fs, id) > 0
  }
}
