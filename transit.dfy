/** The normalised itinerary data shared by every stage of the planner:
    transport modes and the segment record built for each raw leg. */
module Transit {
  import opened Wrappers

  /** The three transport modes a segment can have. */
  datatype Mode = Subway | Bus | Walk

  /** The three modes in the order the planner visits them. */
  const AllModes: seq<Mode> := [Subway, Bus, Walk]

  /** The dictionary keys of the three modes. */
  const ModeKeys: set<string> := {"SUBWAY", "BUS", "WALK"}

  /** The dictionary key under which a mode's bias is stored. */
  function Key(m: Mode): (k: string)
    ensures k in ModeKeys
  {
    match m
    case Subway => "SUBWAY"
    case Bus => "BUS"
    case Walk => "WALK"
  }

  lemma KeyInjective(m: Mode, n: Mode)
    ensures Key(m) == Key(n) <==> m == n
  {
  }

  /** A point of a segment's polyline: (latitude, longitude). */
  type LatLng = (real, real)

  /** One contiguous leg of a single mode, as the planner renders and scores it. */
  datatype Segment = Segment(
    mode: Mode,
    name: string,
    distanceM: real,
    durationMin: real,   // pure travel time: no bias, crowd or penalty folded in
    crowd: int,          // congestion level 1..4
    bestCar: Option<int>,
    poly: seq<LatLng>)

  /** The set of modes a route uses. */
  function UsedModes(segs: seq<Segment>): set<Mode> {
    set i | 0 <= i < |segs| :: segs[i].mode
  }
}
