/** `paths_to_segs`: the raw legs of one itinerary, as the route-search
    provider returns them, turned into segments one by one in order. */
module SegmentBuilder {
  import opened Wrappers
  import opened Transit
  import opened Crowd

  /** One entry of a leg's `lane` list; each field may be absent. */
  datatype Lane = Lane(
    laneName: Option<string>,
    name: Option<string>,
    subwayName: Option<string>,
    busNo: Option<string>,
    busID: Option<string>)

  const EmptyLane: Lane := Lane(None, None, None, None, None)

  /** A stop of `passStopList.stations`, with its coordinates `x` (longitude) and `y` (latitude). */
  datatype Station = Station(x: real, y: real)

  /** One raw sub-path; `stations` is empty when the leg has no stop list. */
  datatype RawLeg = RawLeg(
    trafficType: Option<int>,
    lane: Option<seq<Lane>>,
    sectionTime: Option<real>,
    distance: Option<real>,
    stations: seq<Station>)

  /** The exception a leg raises: a missing key or indexing an empty lane list. */
  datatype LegError = KeyMissing(key: string) | LaneIndex
  datatype BuildError = BuildError(leg: nat, kind: LegError)

  /** Historical tables: subway mean percentage by (station, day type, "HHMM");
      bus mean boarding count by (route id, hour). */
  type SubwayTable = (string, int, string) -> Option<real>
  type BusTable = (string, Hour) -> Option<real>

  /** AVG_WALK_SPEED, in metres per second. */
  const WalkSpeed: real := 1.3

  function ModeOf(trafficType: Option<int>): (m: Mode)
    ensures m == Subway <==> trafficType == Some(1)
    ensures m == Bus <==> trafficType == Some(2)
  {
    if trafficType == Some(1) then Subway
    else if trafficType == Some(2) then Bus
    else Walk
  }

  /** The exception building a segment from `leg` raises, if any. A subway leg
      raises only on an empty lane list; a bus leg needs a non-empty lane list
      whose first lane has a `busNo`, and `sectionTime` and `distance`, and
      raises on the first of these it lacks; a walk never raises. */
  function LegFault(leg: RawLeg): (f: Option<LegError>)
    ensures ModeOf(leg.trafficType) == Walk ==> f.None?
    ensures ModeOf(leg.trafficType) == Subway ==>
      (f.None? <==> leg.lane.None? || |leg.lane.value| > 0) && (f.Some? ==> f == Some(LaneIndex))
    ensures ModeOf(leg.trafficType) == Bus ==>
      (f.None? <==> && leg.lane.Some? && |leg.lane.value| > 0 && leg.lane.value[0].busNo.Some?
                    && leg.sectionTime.Some? && leg.distance.Some?)
    ensures ModeOf(leg.trafficType) == Bus ==>
      && (leg.lane.None? ==> f == Some(KeyMissing("lane")))
      && (leg.lane.Some? && |leg.lane.value| == 0 ==> f == Some(LaneIndex))
      && (leg.lane.Some? && |leg.lane.value| > 0 && leg.lane.value[0].busNo.None? ==> f == Some(KeyMissing("busNo")))
      && (f == Some(KeyMissing("sectionTime")) <==> FirstLaneOk(leg) && leg.sectionTime.None?)
      && (f == Some(KeyMissing("distance")) <==> FirstLaneOk(leg) && leg.sectionTime.Some? && leg.distance.None?)
  {
    match ModeOf(leg.trafficType)
    case Subway =>
      if leg.lane.Some? && |leg.lane.value| == 0 then Some(LaneIndex) else None
    case Bus =>
      if leg.lane.None? then Some(KeyMissing("lane"))
      else if |leg.lane.value| == 0 then Some(LaneIndex)
      else if leg.lane.value[0].busNo.None? then Some(KeyMissing("busNo"))
      else if leg.sectionTime.None? then Some(KeyMissing("sectionTime"))
      else if leg.distance.None? then Some(KeyMissing("distance"))
      else None
    case Walk => None
  }

  /** The bus leg's first lane exists and names its bus. */
  predicate FirstLaneOk(leg: RawLeg) {
    leg.lane.Some? && |leg.lane.value| > 0 && leg.lane.value[0].busNo.Some?
  }

  /** A string value that Python's `or` keeps: present and non-empty. */
  predicate Present(a: Option<string>) {
    a.Some? && a.value != ""
  }

  /** Python's `a or b`: the first string that is present and non-empty. */
  function Or(a: Option<string>, b: string): (s: string)
    ensures Present(a) ==> s == a.value
    ensures !Present(a) ==> s == b
  {
    if Present(a) then a.value else b
  }

  /** A subway leg's label: laneName, else name, else subwayName, else "". */
  function SubwayName(lane0: Lane): (s: string)
    ensures Present(lane0.laneName) ==> s == lane0.laneName.value
    ensures !Present(lane0.laneName) && Present(lane0.name) ==> s == lane0.name.value
    ensures !Present(lane0.laneName) && !Present(lane0.name) && Present(lane0.subwayName)
      ==> s == lane0.subwayName.value
    ensures !Present(lane0.laneName) && !Present(lane0.name) && !Present(lane0.subwayName) ==> s == ""
  {
    Or(lane0.laneName, Or(lane0.name, Or(lane0.subwayName, "")))
  }

  /** The first lane of a subway leg, an empty one when the leg has no lane list. */
  function FirstLane(leg: RawLeg): Lane
    requires LegFault(leg).None? && ModeOf(leg.trafficType) != Walk
  {
    if leg.lane.None? then EmptyLane else leg.lane.value[0]
  }

  /** The polyline: each stop as (latitude, longitude). */
  function Poly(stations: seq<Station>): (poly: seq<LatLng>)
    ensures |poly| == |stations|
    ensures forall k :: 0 <= k < |stations| ==> poly[k] == (stations[k].y, stations[k].x)
  {
    seq(|stations|, k requires 0 <= k < |stations| => (stations[k].y, stations[k].x))
  }

  /** The segment a leg becomes, with no car recommended: subway and bus keep the
      leg's time and distance (a subway leg's missing ones count as 0) and take
      their level from the tables; any other leg is a walk at WalkSpeed, level 1. */
  function SegmentOf(leg: RawLeg, now: Instant, sub: SubwayTable, bus: BusTable): (s: Segment)
    requires LegFault(leg).None?
    ensures s.mode == ModeOf(leg.trafficType) && s.bestCar.None? && s.poly == Poly(leg.stations)
    ensures s.mode != Walk ==> s.distanceM == leg.distance.GetOr(0.0) && s.durationMin == leg.sectionTime.GetOr(0.0)
    ensures s.mode == Walk ==> s.distanceM == leg.distance.GetOr(0.0) && s.durationMin * 78.0 == s.distanceM && s.crowd == 1
    ensures 1 <= s.crowd <= 4
    ensures s.mode == Subway ==>
      && s.name == SubwayName(FirstLane(leg))
      && s.crowd == SubwayLevel(sub(s.name, DayType(now.weekday), Hhmm(now.hour, now.minute)))
    ensures s.mode == Bus ==>
      && s.name == leg.lane.value[0].busNo.value
      && s.crowd == BusLevel(bus(leg.lane.value[0].busID.GetOr(""), now.hour))
    ensures s.mode == Walk ==> s.name == "도보"
  {
    var poly := Poly(leg.stations);
    match ModeOf(leg.trafficType)
    case Subway =>
      var name := SubwayName(FirstLane(leg));
      var key := SubwayKey(name, now);
      Segment(Subway, name, leg.distance.GetOr(0.0), leg.sectionTime.GetOr(0.0),
              SubwayLevel(sub(key.0, key.1, key.2)), None, poly)
    case Bus =>
      var lane0 := leg.lane.value[0];
      Segment(Bus, lane0.busNo.value, leg.distance.value, leg.sectionTime.value,
              BusLevel(bus(lane0.busID.GetOr(""), now.hour)), None, poly)
    case Walk =>
      var dist := leg.distance.GetOr(0.0);
      Segment(Walk, "도보", dist, dist / WalkSpeed / 60.0, 1, None, poly)
  }

  /** A car is recommended for subway segments only, among those their level allows. */
  ghost predicate CarAdvice(s: Segment) {
    if s.mode == Subway then s.bestCar.Some? && s.bestCar.value in AllowedCars(s.crowd)
    else s.bestCar.None?
  }

  /** `seg` is what `leg` becomes: SegmentOf, with an allowed car for a subway leg. */
  ghost predicate Normalizes(leg: RawLeg, seg: Segment, now: Instant, sub: SubwayTable, bus: BusTable) {
    && LegFault(leg).None?
    && seg == SegmentOf(leg, now, sub, bus).(bestCar := seg.bestCar)
    && CarAdvice(seg)
  }

  /** `paths_to_segs`: walks the legs in order; the first leg that raises ends the
      build with its error; otherwise every leg yields exactly one segment. */
  method PathsToSegs(legs: seq<RawLeg>, now: Instant, sub: SubwayTable, bus: BusTable)
    returns (r: Result<seq<Segment>, BuildError>)
    ensures r.Success? <==> forall i :: 0 <= i < |legs| ==> LegFault(legs[i]).None?
    ensures r.Success? ==>
      && |r.value| == |legs|
      && forall i :: 0 <= i < |legs| ==> Normalizes(legs[i], r.value[i], now, sub, bus)
    ensures r.Failure? ==>
      && r.error.leg < |legs|
      && LegFault(legs[r.error.leg]) == Some(r.error.kind)
      && forall i :: 0 <= i < r.error.leg ==> LegFault(legs[i]).None?
  {
    var segs: seq<Segment> := [];
    for i := 0 to |legs|
      invariant |segs| == i
      invariant forall j :: 0 <= j < i ==> Normalizes(legs[j], segs[j], now, sub, bus)
    {
      var sp := legs[i];
      var mode: Mode, name: string, dist: real, dur: real, crowd: int, best: Option<int>;
      if sp.trafficType == Some(1) {
        mode := Subway;
        if sp.lane.Some? && |sp.lane.value| == 0 {
          return Failure(BuildError(i, LaneIndex));
        }
        var lane0 := if sp.lane.None? then EmptyLane else sp.lane.value[0];
        name := SubwayName(lane0);
        dur, dist := sp.sectionTime.GetOr(0.0), sp.distance.GetOr(0.0);
        var car;
        crowd, car := SubwayCrowdLevel(sub(name, DayType(now.weekday), Hhmm(now.hour, now.minute)));
        best := Some(car);
      } else if sp.trafficType == Some(2) {
        mode := Bus;
        if sp.lane.None? {
          return Failure(BuildError(i, KeyMissing("lane")));
        }
        if |sp.lane.value| == 0 {
          return Failure(BuildError(i, LaneIndex));
        }
        var lane0 := sp.lane.value[0];
        if lane0.busNo.None? {
          return Failure(BuildError(i, KeyMissing("busNo")));
        }
        name := lane0.busNo.value;
        if sp.sectionTime.None? {
          return Failure(BuildError(i, KeyMissing("sectionTime")));
        }
        if sp.distance.None? {
          return Failure(BuildError(i, KeyMissing("distance")));
        }
        dur, dist := sp.sectionTime.value, sp.distance.value;
        crowd := BusLevel(bus(lane0.busID.GetOr(""), now.hour));
        best := None;
      } else {
        mode, name := Walk, "도보";
        dist := sp.distance.GetOr(0.0);
        dur := dist / WalkSpeed / 60.0;
        crowd, best := 1, None;
      }
      var coords := Poly(sp.stations);
      segs := segs + [Segment(mode, name, dist, dur, crowd, best, coords)];
    }
    return Success(segs);
  }
}
