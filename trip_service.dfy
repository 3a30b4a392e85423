/**
  * The trip builder of the globe view (src/services/tripService.ts): an
  * ordered list of stops becomes the trip's locations (one per known name, in
  * order of first appearance) and its segments (one per consecutive pair of
  * stops that both have a location), with dates cut out of "start → end"
  * ranges; the globe layers are filters and maps over the result.
  *
  * Coordinates are JavaScript numbers; they are only copied, never computed
  * with, so `real` stands in for them.
  */
module TripService {
  import opened Wrappers
  import opened Strings
  import opened Seqs

  datatype Location = Location(name: string, latitude: real, longitude: real)

  datatype SegmentType = Flight | Ground | Stay

  datatype Segment = Segment(
    id: string,
    from: Location,
    to: Location,
    startDate: string,
    endDate: string,
    kind: SegmentType,
    hasFlight: bool,
    notes: Option<string>)

  datatype TripData = TripData(title: string, segments: seq<Segment>, locations: seq<Location>)

  /** One entry of the raw stop list. */
  datatype RawStop = RawStop(name: string, dates: string, hasFlight: bool)

  /** RIGHTWARDS ARROW, the separator of a date range. */
  const Arrow: char := '\U{2192}'

  const TripTitle := "Mini Retirement Trip 2025"

  /** The coordinate table: name to (latitude, longitude). */
  const LocationCoordinates: map<string, (real, real)> := map[
    "China" := (35.8617, 104.1954),
    "Korea" := (35.9078, 127.7669),
    "Taiwan" := (23.6978, 120.9605),
    "Vietnam" := (14.0583, 108.2772),
    "Malaysia" := (4.2105, 101.9758),
    "Indonesia" := (-0.7893, 113.9213),
    "Singapore" := (1.3521, 103.8198),
    "London" := (51.5074, -0.1278),
    "Netherlands" := (52.1326, 5.2913),
    "Bergamo" := (45.6983, 9.6773),
    "Reggio" := (38.1097, 15.6547),
    "Puglia" := (41.1255, 16.8672),
    "San Marino" := (43.9333, 12.4667),
    "Ommen" := (52.5167, 6.4167)
  ]

  /** The stops of the trip, in travel order. */
  const RawStops: seq<RawStop> := [
    RawStop("China", "April 1, 2025 \U{2192} April 22, 2025", true),
    RawStop("Korea", "April 22, 2025 \U{2192} May 6, 2025", true),
    RawStop("Taiwan", "May 6, 2025 \U{2192} May 16, 2025", true),
    RawStop("Vietnam", "May 16, 2025 \U{2192} June 11, 2025", true),
    RawStop("Malaysia", "June 11, 2025 \U{2192} June 30, 2025", true),
    RawStop("Indonesia", "June 30, 2025 \U{2192} July 27, 2025", true),
    RawStop("Singapore", "July 27, 2025 \U{2192} July 31, 2025", true),
    RawStop("London", "August 3, 2025 \U{2192} August 4, 2025", true),
    RawStop("Netherlands", "August 4, 2025 \U{2192} August 7, 2025", false),
    RawStop("Bergamo", "August 31, 2025 \U{2192} September 5, 2025", false),
    RawStop("Puglia", "September 6, 2025 \U{2192} September 19, 2025", false),
    RawStop("San Marino", "September 20, 2025 \U{2192} September 23, 2025", false),
    RawStop("Reggio", "September 24, 2025 \U{2192} September 26, 2025", false),
    RawStop("Bergamo", "September 26, 2025 \U{2192} September 27, 2025", false),
    RawStop("Ommen", "September 28, 2025 \U{2192} October 1, 2025", false)
  ]

  // ---------------------------------------------------------------------------
  // Date ranges

  /** `parseStartDate`: `^([^→]+)` captures everything before the first arrow and
      needs at least one character, so an empty range or one that starts with the
      arrow comes back unchanged. */
  function ParseStartDate(range: string): (r: string)
    ensures |range| == 0 || range[0] == Arrow ==> r == range
    ensures |range| > 0 && Arrow !in range ==> r == Trim(range)
  {
    var p := IndexOf(range, Arrow);
    var end := if p == -1 then |range| else p;
    if end == 0 then range
    else
      assert range[..|range|] == range;
      Trim(range[..end])
  }

  /** The start date is the trimmed text before the first arrow. */
  lemma StartDateBeforeArrow(before: string, after: string)
    requires |before| > 0 && Arrow !in before
    ensures ParseStartDate(before + [Arrow] + after) == Trim(before)
  {
    IndexOfAfter(before, Arrow, after);
    assert (before + [Arrow] + after)[..|before|] == before;
  }

  /** No line terminator in `s`: `.` matches each of its characters. */
  predicate NoLineBreak(s: string) {
    forall i :: 0 <= i < |s| ==> !IsLineTerminator(s[i])
  }

  /** Every character of `s` is one that `\s` matches. */
  predicate AllWhitespace(s: string) {
    forall i :: 0 <= i < |s| ==> IsJsWhitespace(s[i])
  }

  /** What `\s*(.+)$` matches at the start of `rest`, as a scan: at least one character,
      and either no line terminator at all (`.` matches everything up to the end), or a
      white space character that `\s*` takes before the rest matches. */
  predicate TailMatches(rest: string)
    decreases |rest|
  {
    |rest| > 0 && (NoLineBreak(rest) || (IsJsWhitespace(rest[0]) && TailMatches(rest[1..])))
  }

  /** `\s*` can take the first `k` characters of `rest` and `(.+)$` the others. */
  predicate SplitsAt(rest: string, k: nat) {
    k < |rest| && AllWhitespace(rest[..k]) && NoLineBreak(rest[k..])
  }

  lemma SplitsAtShift(rest: string, k: nat)
    requires |rest| > 0
    ensures SplitsAt(rest, k + 1) <==> IsJsWhitespace(rest[0]) && SplitsAt(rest[1..], k)
  {
    if k + 1 < |rest| {
      assert rest[..k + 1] == [rest[0]] + rest[1..][..k];
      assert rest[k + 1..] == rest[1..][k..];
    }
  }

  /** The scan accepts exactly the strings the pattern describes: white space, then a
      non-empty run without line terminators up to the end. */
  lemma {:induction false} TailMatchesExact(rest: string)
    ensures TailMatches(rest) <==> exists k: nat :: SplitsAt(rest, k)
  {
    if |rest| > 0 {
      TailMatchesExact(rest[1..]);
      if TailMatches(rest) {
        if NoLineBreak(rest) {
          assert rest[..0] == [] && rest[0..] == rest;
          assert SplitsAt(rest, 0);
        } else {
          var k: nat :| SplitsAt(rest[1..], k);
          SplitsAtShift(rest, k);
        }
      }
      if exists k: nat :: SplitsAt(rest, k) {
        var k: nat :| SplitsAt(rest, k);
        if k == 0 {
          assert rest[0..] == rest;
        } else {
          SplitsAtShift(rest, k - 1);
        }
      }
    }
  }

  /** Whatever white space `\s*` takes, trimming the captured text gives the trimmed
      remainder, so the engine's choice of split does not matter. */
  lemma CaptureTrimsLikeRemainder(w: string, t: string)
    requires AllWhitespace(w)
    ensures Trim(t) == Trim(w + t)
  {
    TrimStartSkipsWhitespace(w, t);
  }

  /** The pattern `→\s*(.+)$` matches at position `p` of `s`. */
  predicate MatchesAt(s: string, p: nat)
    requires p < |s|
  {
    s[p] == Arrow && TailMatches(s[p + 1..])
  }

  /** The leftmost position at or after `from` where the pattern matches, or -1. */
  function FirstMatch(s: string, from: nat): (r: int)
    requires from <= |s|
    decreases |s| - from
    ensures r == -1 || from <= r < |s|
    ensures r == -1 <==> forall q :: from <= q < |s| ==> !MatchesAt(s, q)
    ensures r >= 0 ==> MatchesAt(s, r) && forall q :: from <= q < r ==> !MatchesAt(s, q)
  {
    if from == |s| then -1
    else if MatchesAt(s, from) then from
    else FirstMatch(s, from + 1)
  }

  /** `parseEndDate`: the trimmed text after the leftmost arrow where `→\s*(.+)$`
      matches, or the range unchanged when it matches nowhere. */
  function ParseEndDate(range: string): (r: string)
    ensures FirstMatch(range, 0) == -1 ==> r == range
  {
    var p := FirstMatch(range, 0);
    if p == -1 then range else Trim(range[p + 1..])
  }

  /** After an arrow in a string without line breaks, the pattern matches exactly when
      some character follows. */
  lemma TailWithoutLineBreaks(s: string, q: nat)
    requires NoLineBreak(s) && q < |s|
    ensures TailMatches(s[q + 1..]) <==> q + 1 < |s|
  {
    var rest := s[q + 1..];
    assert forall i :: 0 <= i < |rest| ==> rest[i] == s[q + 1 + i];
  }

  /** Without line breaks the rule reads simply: the trimmed text after the first arrow,
      unless that arrow is the last character (or there is none). */
  lemma EndDateWithoutLineBreaks(s: string)
    requires NoLineBreak(s)
    ensures var p := IndexOf(s, Arrow);
            ParseEndDate(s) == if p >= 0 && p + 1 < |s| then Trim(s[p + 1..]) else s
  {
    var p := IndexOf(s, Arrow);
    if p == -1 {
      forall q | 0 <= q < |s| ensures !MatchesAt(s, q) {
        assert s[q] in s;
      }
    } else {
      forall q | 0 <= q < p ensures !MatchesAt(s, q) {
        assert s[q] in s[..p];
      }
      TailWithoutLineBreaks(s, p);
      if p + 1 == |s| {
        assert forall q :: 0 <= q < |s| ==> !MatchesAt(s, q);
      } else {
        assert MatchesAt(s, p);
      }
    }
  }

  /** A date range written as "start → end". */
  function DateRange(start: string, end: string): string {
    start + " " + [Arrow] + " " + end
  }

  /** Both parsers give back the dates a range was written from, when the start date is
      non-empty and both are trimmed, the start holds no arrow and the end no line break. */
  lemma DateRangeRoundTrip(start: string, end: string)
    requires |start| > 0 && IsTrimmed(start) && Arrow !in start
    requires IsTrimmed(end) && NoLineBreak(end)
    ensures ParseStartDate(DateRange(start, end)) == start
    ensures ParseEndDate(DateRange(start, end)) == end
  {
    var s := DateRange(start, end);
    var before := start + " ";
    var tail := " " + end;
    assert s == before + [Arrow] + tail;
    assert Arrow !in before;
    StartDateBeforeArrow(before, tail);
    TrimEndSkipsWhitespace(start, " ");
    TrimTrimmed(start);

    forall q | 0 <= q < |before| ensures !MatchesAt(s, q) {
      assert s[q] == before[q];
    }
    assert s[|before| + 1..] == tail;
    assert NoLineBreak(tail);
    assert MatchesAt(s, |before|);
    CaptureTrimsLikeRemainder(" ", end);
    TrimTrimmed(end);
  }

  // ---------------------------------------------------------------------------
  // Locations

  function LocationOf(name: string, coords: map<string, (real, real)>): Location
    requires name in coords
  {
    Location(name, coords[name].0, coords[name].1)
  }

  /** The `locationMap` that the locations `locs` were entered into, in order. */
  function Index(locs: seq<Location>): map<string, Location> {
    if locs == [] then map[]
    else Index(locs[..|locs| - 1])[locs[|locs| - 1].name := locs[|locs| - 1]]
  }

  /** The map holds exactly the names of the locations, each under its own name. */
  lemma {:induction false} IndexExact(locs: seq<Location>)
    ensures forall name :: name in Index(locs) <==> exists k :: 0 <= k < |locs| && locs[k].name == name
    ensures forall name :: name in Index(locs) ==> Index(locs)[name].name == name && Index(locs)[name] in locs
  {
    if locs != [] {
      var prev := locs[..|locs| - 1];
      IndexExact(prev);
      assert locs == prev + [locs[|locs| - 1]];
      forall name | exists k :: 0 <= k < |locs| && locs[k].name == name ensures name in Index(locs) {
        var k :| 0 <= k < |locs| && locs[k].name == name;
        if k < |prev| {
          assert prev[k].name == name;
        }
      }
    }
  }

  /** The first position of a stop named `name`, or -1. */
  function FirstStop(raw: seq<RawStop>, name: string): (r: int)
    ensures -1 <= r < |raw|
    ensures r == -1 <==> forall i :: 0 <= i < |raw| ==> raw[i].name != name
    ensures r >= 0 ==> raw[r].name == name && forall i :: 0 <= i < r ==> raw[i].name != name
  {
    if raw == [] then -1
    else
      var p := FirstStop(raw[..|raw| - 1], name);
      if p >= 0 then p
      else if raw[|raw| - 1].name == name then |raw| - 1
      else -1
  }

  /** The locations the `forEach` over the stops creates: a stop whose name the map does
      not hold yet and the coordinate table knows adds its location. */
  function Locations(raw: seq<RawStop>, coords: map<string, (real, real)>): seq<Location> {
    if raw == [] then []
    else
      var prev := Locations(raw[..|raw| - 1], coords);
      var name := raw[|raw| - 1].name;
      if name !in Index(prev) && name in coords then prev + [LocationOf(name, coords)] else prev
  }

  /** Every location carries the table's coordinates for a name that some stop has. */
  predicate FromTable(locs: seq<Location>, raw: seq<RawStop>, coords: map<string, (real, real)>) {
    forall k :: 0 <= k < |locs| ==>
      locs[k].name in coords && locs[k] == LocationOf(locs[k].name, coords) && FirstStop(raw, locs[k].name) >= 0
  }

  predicate DistinctNames(locs: seq<Location>) {
    forall j, k :: 0 <= j < k < |locs| ==> locs[j].name != locs[k].name
  }

  /** A stop that adds a location brings a name the earlier locations do not have. */
  lemma AddedNameIsNew(raw: seq<RawStop>, coords: map<string, (real, real)>)
    requires raw != [] && Locations(raw, coords) != Locations(raw[..|raw| - 1], coords)
    ensures var before, name := Locations(raw[..|raw| - 1], coords), raw[|raw| - 1].name;
      && name in coords
      && Locations(raw, coords) == before + [LocationOf(name, coords)]
      && forall k :: 0 <= k < |before| ==> before[k].name != name
  {
    var before := Locations(raw[..|raw| - 1], coords);
    IndexExact(before);
  }

  /** Every location belongs to a stop and carries the table's coordinates. */
  lemma {:induction false} LocationsFromTable(raw: seq<RawStop>, coords: map<string, (real, real)>)
    ensures FromTable(Locations(raw, coords), raw, coords)
  {
    if raw != [] {
      var prev := raw[..|raw| - 1];
      LocationsFromTable(prev, coords);
      var before := Locations(prev, coords);
      var locs := Locations(raw, coords);
      forall k | 0 <= k < |before| ensures FirstStop(raw, before[k].name) >= 0 {
        assert FirstStop(prev, before[k].name) >= 0;
      }
      if locs != before {
        AddedNameIsNew(raw, coords);
        assert FirstStop(raw, raw[|raw| - 1].name) >= 0;
      }
    }
  }

  /** No name appears twice among the locations. */
  lemma {:induction false} LocationsDistinct(raw: seq<RawStop>, coords: map<string, (real, real)>)
    ensures DistinctNames(Locations(raw, coords))
  {
    if raw != [] {
      var prev := raw[..|raw| - 1];
      LocationsDistinct(prev, coords);
      if Locations(raw, coords) != Locations(prev, coords) {
        AddedNameIsNew(raw, coords);
      }
    }
  }

  /** Every stop whose name the table knows has a location. */
  lemma {:induction false} LocationsComplete(raw: seq<RawStop>, coords: map<string, (real, real)>)
    ensures forall i :: 0 <= i < |raw| && raw[i].name in coords ==> raw[i].name in Index(Locations(raw, coords))
  {
    if raw != [] {
      var prev := raw[..|raw| - 1];
      LocationsComplete(prev, coords);
      var before := Locations(prev, coords);
      var after := Locations(raw, coords);
      if after != before {
        assert after[..|after| - 1] == before;
      }
      assert forall n :: n in Index(before) ==> n in Index(after);
      forall i | 0 <= i < |raw| && raw[i].name in coords ensures raw[i].name in Index(after) {
        if i < |raw| - 1 {
          assert prev[i] == raw[i];
        }
      }
    }
  }

  /** A name already among the earlier stops keeps its first position. */
  lemma FirstStopExtends(raw: seq<RawStop>, name: string)
    requires raw != [] && FirstStop(raw[..|raw| - 1], name) >= 0
    ensures FirstStop(raw, name) == FirstStop(raw[..|raw| - 1], name)
  {
  }

  /** A stop that adds a location is the first stop with its name. */
  lemma NewLocationFirstAppears(raw: seq<RawStop>, coords: map<string, (real, real)>)
    requires raw != [] && Locations(raw, coords) != Locations(raw[..|raw| - 1], coords)
    ensures FirstStop(raw, raw[|raw| - 1].name) == |raw| - 1
  {
    var prev := raw[..|raw| - 1];
    var name := raw[|raw| - 1].name;
    LocationsComplete(prev, coords);
    assert name in coords && name !in Index(Locations(prev, coords));
    forall i | 0 <= i < |prev| ensures prev[i].name != name {
    }
  }

  /** Positions of first appearance increase along `locs`. */
  predicate InFirstAppearanceOrder(locs: seq<Location>, raw: seq<RawStop>) {
    forall j, k :: 0 <= j < k < |locs| ==> FirstStop(raw, locs[j].name) < FirstStop(raw, locs[k].name)
  }

  /** Locations come in the order in which their names first appear among the stops,
      so a name that comes back later (the second "Bergamo") adds nothing. */
  lemma {:induction false} LocationsInFirstAppearanceOrder(raw: seq<RawStop>, coords: map<string, (real, real)>)
    ensures InFirstAppearanceOrder(Locations(raw, coords), raw)
  {
    if raw != [] {
      var prev := raw[..|raw| - 1];
      LocationsInFirstAppearanceOrder(prev, coords);
      LocationsFromTable(prev, coords);
      var before := Locations(prev, coords);
      var locs := Locations(raw, coords);
      forall k | 0 <= k < |before|
        ensures FirstStop(raw, before[k].name) == FirstStop(prev, before[k].name) < |prev|
      {
        FirstStopExtends(raw, before[k].name);
      }
      if locs != before {
        NewLocationFirstAppears(raw, coords);
        assert locs == before + [LocationOf(raw[|raw| - 1].name, coords)];
      }
      forall j, k | 0 <= j < k < |locs| ensures FirstStop(raw, locs[j].name) < FirstStop(raw, locs[k].name) {
        assert locs[j] == before[j];
        if k < |before| {
          assert locs[k] == before[k];
        }
      }
    }
  }

  // ---------------------------------------------------------------------------
  // Segments

  /** Number of iterations of `for (i = 0; i < rawSegments.length - 1; i++)`. */
  function PairCount(raw: seq<RawStop>): nat {
    if |raw| == 0 then 0 else |raw| - 1
  }

  /** The segment from stop `current` to stop `next`, between the given locations. */
  function MakeSegment(current: RawStop, next: RawStop, from: Location, to: Location): Segment {
    Segment(
      current.name + "-to-" + next.name,
      from,
      to,
      ParseEndDate(current.dates),
      ParseStartDate(next.dates),
      if next.hasFlight then Flight else Ground,
      next.hasFlight,
      Some(if next.hasFlight then "Flight connection" else "Ground travel"))
  }

  /** The segments the loop has emitted after its first `k` iterations; `m` is the
      location map. */
  function Segments(raw: seq<RawStop>, m: map<string, Location>, k: nat): seq<Segment>
    requires k <= PairCount(raw)
  {
    if k == 0 then []
    else
      var prev := Segments(raw, m, k - 1);
      var current, next := raw[k - 1], raw[k];
      if current.name in m && next.name in m then
        prev + [MakeSegment(current, next, m[current.name], m[next.name])]
      else prev
  }

  /** The trip built from the stops and the coordinate table. */
  function BuildTrip(raw: seq<RawStop>, coords: map<string, (real, real)>): TripData {
    var locs := Locations(raw, coords);
    TripData(TripTitle, Segments(raw, Index(locs), PairCount(raw)), locs)
  }

  /** At most one segment per pair of consecutive stops. */
  lemma {:induction false} SegmentsBound(raw: seq<RawStop>, m: map<string, Location>, k: nat)
    requires k <= PairCount(raw)
    ensures |Segments(raw, m, k)| <= k
  {
    if k > 0 {
      SegmentsBound(raw, m, k - 1);
    }
  }

  /** Every segment joins a pair of consecutive stops that both have a location. */
  lemma {:induction false} SegmentsSound(raw: seq<RawStop>, m: map<string, Location>, k: nat)
    requires k <= PairCount(raw)
    ensures forall s :: s in Segments(raw, m, k) ==>
              exists i :: 0 <= i < k && raw[i].name in m && raw[i + 1].name in m
                          && s == MakeSegment(raw[i], raw[i + 1], m[raw[i].name], m[raw[i + 1].name])
  {
    if k > 0 {
      SegmentsSound(raw, m, k - 1);
    }
  }

  /** Every pair of consecutive stops that both have a location gives a segment. */
  lemma {:induction false} SegmentsComplete(raw: seq<RawStop>, m: map<string, Location>, k: nat)
    requires k <= PairCount(raw)
    ensures forall i :: 0 <= i < k && raw[i].name in m && raw[i + 1].name in m ==>
              MakeSegment(raw[i], raw[i + 1], m[raw[i].name], m[raw[i + 1].name]) in Segments(raw, m, k)
  {
    if k > 0 {
      SegmentsComplete(raw, m, k - 1);
      var prev, segs := Segments(raw, m, k - 1), Segments(raw, m, k);
      var current, next := raw[k - 1], raw[k];
      if current.name in m && next.name in m {
        assert segs == prev + [MakeSegment(current, next, m[current.name], m[next.name])];
      } else {
        assert segs == prev;
      }
      assert forall s :: s in prev ==> s in segs;
    }
  }

  /** When every stop has a location, the segments are exactly the consecutive pairs,
      in order. */
  lemma {:induction false} SegmentsAllConnected(raw: seq<RawStop>, m: map<string, Location>, k: nat)
    requires k <= PairCount(raw)
    requires forall i :: 0 <= i < |raw| ==> raw[i].name in m
    ensures |Segments(raw, m, k)| == k
    ensures forall i :: 0 <= i < k ==>
              Segments(raw, m, k)[i] == MakeSegment(raw[i], raw[i + 1], m[raw[i].name], m[raw[i + 1].name])
  {
    if k > 0 {
      SegmentsAllConnected(raw, m, k - 1);
      var current, next := raw[k - 1], raw[k];
      assert current.name in m && next.name in m;
      var prev, segs := Segments(raw, m, k - 1), Segments(raw, m, k);
      assert segs == prev + [MakeSegment(current, next, m[current.name], m[next.name])];
      forall i | 0 <= i < k - 1
        ensures segs[i] == MakeSegment(raw[i], raw[i + 1], m[raw[i].name], m[raw[i + 1].name])
      {
        assert segs[i] == prev[i];
      }
    }
  }

  /** Every segment of a built trip reads as its stops say: its id names both ends,
      its ends are locations of the trip, it is a flight exactly when the next stop is
      reached by air, and its notes say which. */
  lemma TripSegmentsWellFormed(raw: seq<RawStop>, coords: map<string, (real, real)>)
    ensures var trip := BuildTrip(raw, coords);
      forall s :: s in trip.segments ==>
        && s.id == s.from.name + "-to-" + s.to.name
        && s.from in trip.locations && s.to in trip.locations
        && (s.kind == Flight <==> s.hasFlight)
        && s.kind != Stay
        && s.notes == Some(if s.hasFlight then "Flight connection" else "Ground travel")
  {
    var locs := Locations(raw, coords);
    IndexExact(locs);
    SegmentsSound(raw, Index(locs), PairCount(raw));
  }

  /** Every stop of the app's trip is in the coordinate table. */
  lemma AllStopsKnown()
    ensures forall i :: 0 <= i < |RawStops| ==> RawStops[i].name in LocationCoordinates
  {
  }

  /** The app's trip: every stop is in the coordinate table, so each of the 14
      consecutive pairs of its 15 stops gives a segment, in travel order. */
  lemma TheTrip()
    ensures var trip := BuildTrip(RawStops, LocationCoordinates);
      && |trip.segments| == 14
      && forall i :: 0 <= i < 14 ==> trip.segments[i].id == RawStops[i].name + "-to-" + RawStops[i + 1].name
  {
    var locs := Locations(RawStops, LocationCoordinates);
    AllStopsKnown();
    LocationsComplete(RawStops, LocationCoordinates);
    SegmentsAllConnected(RawStops, Index(locs), PairCount(RawStops));
  }

  /** `parseTripData`: the `forEach` that creates the locations, then the loop over
      consecutive pairs that creates the segments. */
  method ParseTripData(raw: seq<RawStop>, coords: map<string, (real, real)>) returns (trip: TripData)
    ensures trip == BuildTrip(raw, coords)
  {
    var locations: seq<Location> := [];
    var locationMap: map<string, Location> := map[];
    for n := 0 to |raw|
      invariant locations == Locations(raw[..n], coords)
      invariant locationMap == Index(locations)
    {
      assert raw[..n + 1][..n] == raw[..n];
      var stop := raw[n];
      assert raw[..n + 1][n] == stop;
      if stop.name !in locationMap && stop.name in coords {
        var location := LocationOf(stop.name, coords);
        assert Locations(raw[..n + 1], coords) == locations + [location];
        locations := locations + [location];
        locationMap := locationMap[stop.name := location];
      }
    }
    assert raw[..|raw|] == raw;

    var segments: seq<Segment> := [];
    for i := 0 to PairCount(raw)
      invariant segments == Segments(raw, locationMap, i)
    {
      var current, next := raw[i], raw[i + 1];
      if current.name in locationMap && next.name in locationMap {
        var segment := MakeSegment(current, next, locationMap[current.name], locationMap[next.name]);
        assert Segments(raw, locationMap, i + 1) == segments + [segment];
        segments := segments + [segment];
      } else {
        assert Segments(raw, locationMap, i + 1) == segments;
      }
    }
    return TripData(TripTitle, segments, locations);
  }

  // ---------------------------------------------------------------------------
  // Globe layers

  datatype Arc = Arc(startLat: real, startLng: real, endLat: real, endLng: real, color: string, stroke: nat, altitude: real)

  /** A ground path; each point is (longitude, latitude), the order the globe expects. */
  datatype GroundPath = GroundPath(coords: seq<(real, real)>, color: string, stroke: nat, altitude: real)

  datatype Point = Point(lat: real, lng: real, size: nat, color: string, labelText: string)

  predicate IsFlight(s: Segment) { s.kind == Flight }

  predicate IsGround(s: Segment) { s.kind == Ground }

  /** `getFlightArcs`: one red arc per flight segment, in order. */
  function FlightArcs(trip: TripData): (r: seq<Arc>)
    ensures var flights := Filter(trip.segments, IsFlight);
      && |r| == |flights|
      && forall i :: 0 <= i < |r| ==>
           && r[i].startLat == flights[i].from.latitude && r[i].startLng == flights[i].from.longitude
           && r[i].endLat == flights[i].to.latitude && r[i].endLng == flights[i].to.longitude
           && r[i].color == "#ff6b6b" && r[i].stroke == 2 && r[i].altitude == 0.3
  {
    var flights := Filter(trip.segments, IsFlight);
    seq(|flights|, i requires 0 <= i < |flights| =>
      Arc(flights[i].from.latitude, flights[i].from.longitude, flights[i].to.latitude, flights[i].to.longitude,
          "#ff6b6b", 2, 0.3))
  }

  /** `getGroundPaths`: one teal path per ground segment, in order, with points in
      (longitude, latitude) order. */
  function GroundPaths(trip: TripData): (r: seq<GroundPath>)
    ensures var grounds := Filter(trip.segments, IsGround);
      && |r| == |grounds|
      && forall i :: 0 <= i < |r| ==>
           && r[i].coords == [(grounds[i].from.longitude, grounds[i].from.latitude),
                              (grounds[i].to.longitude, grounds[i].to.latitude)]
           && r[i].color == "#4ecdc4" && r[i].stroke == 3 && r[i].altitude == 0.01
  {
    var grounds := Filter(trip.segments, IsGround);
    seq(|grounds|, i requires 0 <= i < |grounds| =>
      GroundPath([(grounds[i].from.longitude, grounds[i].from.latitude),
                  (grounds[i].to.longitude, grounds[i].to.latitude)], "#4ecdc4", 3, 0.01))
  }

  /** `getTripPoints`: one yellow point per location, labelled with its name. */
  function TripPoints(trip: TripData): (r: seq<Point>)
    ensures |r| == |trip.locations|
    ensures forall i :: 0 <= i < |r| ==>
              r[i] == Point(trip.locations[i].latitude, trip.locations[i].longitude, 1, "#feca57", trip.locations[i].name)
  {
    seq(|trip.locations|, i requires 0 <= i < |trip.locations| =>
      Point(trip.locations[i].latitude, trip.locations[i].longitude, 1, "#feca57", trip.locations[i].name))
  }

  /** The arcs and the paths split the segments of a built trip between them: each
      segment is a flight or ground segment, so every one is drawn exactly once. */
  lemma LayersCoverSegments(raw: seq<RawStop>, coords: map<string, (real, real)>)
    ensures var trip := BuildTrip(raw, coords);
      |FlightArcs(trip)| + |GroundPaths(trip)| == |trip.segments|
  {
    var trip := BuildTrip(raw, coords);
    TripSegmentsWellFormed(raw, coords);
    FilterSplits(trip.segments);
  }

  /** Flight and ground filters of segments that are never stays add up to all of them. */
  lemma {:induction false} FilterSplits(segs: seq<Segment>)
    requires forall s :: s in segs ==> s.kind != Stay
    ensures |Filter(segs, IsFlight)| + |Filter(segs, IsGround)| == |segs|
  {
    if segs != [] {
      FilterSplits(segs[..|segs| - 1]);
    }
  }
}
