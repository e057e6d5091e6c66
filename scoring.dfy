/** `score_route`: the cost of a route under given preferences, lower being
    better. The preferences are the already merged dictionary; a key it lacks
    takes the default `score_route` reads it with. */
module Scoring {
  import opened Wrappers
  import opened Transit
  import opened Preferences

  function CrowdWeight(p: PrefsDict): real { p.crowdWeight.GetOr(0.0) }
  function MaxCrowd(p: PrefsDict): int { p.maxCrowd.GetOr(4) }
  function WalkLimit(p: PrefsDict): real { p.walkLimitMin.GetOr(15.0) }

  /** The bias of a mode; a missing table or entry counts as 0. */
  function Bias(p: PrefsDict, m: Mode): real { Get(p.modeBias.GetOr(map[]), Key(m)) }

  /** A segment's share of the score before penalties. */
  function SegBase(s: Segment, p: PrefsDict): real {
    s.durationMin - Bias(p, s.mode) + CrowdWeight(p) * (s.crowd - 1) as real
  }

  /** The segment's over-crowd count, 1 when its level exceeds max_crowd. */
  function Over(s: Segment, maxCrowd: int): nat {
    if s.crowd > maxCrowd then 1 else 0
  }

  /** The segment's walking minutes: its duration if it is a walk, else nothing. */
  function WalkPart(s: Segment): real {
    if s.mode == Walk then s.durationMin else 0.0
  }

  function BaseSum(segs: seq<Segment>, p: PrefsDict): real {
    if segs == [] then 0.0 else BaseSum(segs[..|segs| - 1], p) + SegBase(segs[|segs| - 1], p)
  }

  function OverCount(segs: seq<Segment>, maxCrowd: int): nat {
    if segs == [] then 0 else OverCount(segs[..|segs| - 1], maxCrowd) + Over(segs[|segs| - 1], maxCrowd)
  }

  function WalkMinutes(segs: seq<Segment>): real {
    if segs == [] then 0.0 else WalkMinutes(segs[..|segs| - 1]) + WalkPart(segs[|segs| - 1])
  }

  /** The score: the summed base terms, 1000 for each over-crowded segment,
      and 999 once when the route's walking exceeds the limit. */
  function Score(segs: seq<Segment>, p: PrefsDict): real {
    BaseSum(segs, p) + 1000.0 * OverCount(segs, MaxCrowd(p)) as real
      + (if WalkMinutes(segs) > WalkLimit(p) then 999.0 else 0.0)
  }

  /** `score_route`'s loop over the segments. */
  method ScoreRoute(segs: seq<Segment>, p: PrefsDict) returns (score: real)
    ensures score == Score(segs, p)
  {
    score := 0.0;
    var totalWalkMin := 0.0;
    var bias := p.modeBias.GetOr(map[]);
    var crowdW := p.crowdWeight.GetOr(0.0);
    for i := 0 to |segs|
      invariant score == BaseSum(segs[..i], p) + 1000.0 * OverCount(segs[..i], MaxCrowd(p)) as real
      invariant totalWalkMin == WalkMinutes(segs[..i])
    {
      var s := segs[i];
      assert segs[..i + 1][..i] == segs[..i] && segs[..i + 1][i] == s;
      assert BaseSum(segs[..i + 1], p) == BaseSum(segs[..i], p) + SegBase(s, p);
      assert OverCount(segs[..i + 1], MaxCrowd(p)) == OverCount(segs[..i], MaxCrowd(p)) + Over(s, MaxCrowd(p));
      assert WalkMinutes(segs[..i + 1]) == WalkMinutes(segs[..i]) + WalkPart(s);
      if s.mode == Walk {
        totalWalkMin := totalWalkMin + s.durationMin;
      }
      score := score + s.durationMin;
      score := score - Get(bias, Key(s.mode));
      score := score + crowdW * (s.crowd - 1) as real;
      if s.crowd > p.maxCrowd.GetOr(4) {
        score := score + 1000.0;
      }
    }
    assert segs[..|segs|] == segs;
    if totalWalkMin > p.walkLimitMin.GetOr(15.0) {
      score := score + 999.0;
    }
  }

  // ---- Replacing one segment changes each sum by that segment's terms only.

  lemma {:induction false} BaseSumUpdate(segs: seq<Segment>, p: PrefsDict, i: nat, s: Segment)
    requires i < |segs|
    ensures BaseSum(segs[i := s], p) == BaseSum(segs, p) - SegBase(segs[i], p) + SegBase(s, p)
    decreases |segs|
  {
    var n := |segs| - 1;
    if i < n {
      assert segs[i := s][..n] == segs[..n][i := s];
      BaseSumUpdate(segs[..n], p, i, s);
    } else {
      assert segs[i := s][..n] == segs[..n];
    }
  }

  lemma {:induction false} OverCountUpdate(segs: seq<Segment>, c: int, i: nat, s: Segment)
    requires i < |segs|
    ensures OverCount(segs[i := s], c) == OverCount(segs, c) - Over(segs[i], c) + Over(s, c)
    decreases |segs|
  {
    var n := |segs| - 1;
    if i < n {
      assert segs[i := s][..n] == segs[..n][i := s];
      OverCountUpdate(segs[..n], c, i, s);
    } else {
      assert segs[i := s][..n] == segs[..n];
    }
  }

  /** Only walk segments contribute to the walking total: replacing a segment
      changes it by the walking minutes of the old and new segment alone. */
  lemma {:induction false} WalkMinutesUpdate(segs: seq<Segment>, i: nat, s: Segment)
    requires i < |segs|
    ensures WalkMinutes(segs[i := s]) == WalkMinutes(segs) - WalkPart(segs[i]) + WalkPart(s)
    decreases |segs|
  {
    var n := |segs| - 1;
    if i < n {
      assert segs[i := s][..n] == segs[..n][i := s];
      WalkMinutesUpdate(segs[..n], i, s);
    } else {
      assert segs[i := s][..n] == segs[..n];
    }
  }

  // ---- Properties of the score.

  /** An empty route scores 0 unless the walking limit is negative. */
  lemma EmptyRouteScore(p: PrefsDict)
    requires WalkLimit(p) >= 0.0
    ensures Score([], p) == 0.0
  {
  }

  /** A route without walk segments walks 0 minutes. */
  lemma {:induction false} NoWalkNoWalkMinutes(segs: seq<Segment>)
    requires forall i :: 0 <= i < |segs| ==> segs[i].mode != Walk
    ensures WalkMinutes(segs) == 0.0
    decreases |segs|
  {
    if segs != [] {
      NoWalkNoWalkMinutes(segs[..|segs| - 1]);
    }
  }

  /** Replacing a segment by one with the same walking minutes changes the
      score by that segment's base and over-crowd terms alone. */
  lemma ScoreUpdate(segs: seq<Segment>, p: PrefsDict, i: nat, s: Segment)
    requires i < |segs| && WalkPart(s) == WalkPart(segs[i])
    ensures Score(segs[i := s], p) == Score(segs, p) - SegBase(segs[i], p) + SegBase(s, p)
      + 1000.0 * (Over(s, MaxCrowd(p)) as real - Over(segs[i], MaxCrowd(p)) as real)
  {
    BaseSumUpdate(segs, p, i, s);
    OverCountUpdate(segs, MaxCrowd(p), i, s);
    WalkMinutesUpdate(segs, i, s);
    var t := segs[i := s];
    var oc, oc' := OverCount(segs, MaxCrowd(p)), OverCount(t, MaxCrowd(p));
    assert oc' as real == oc as real - Over(segs[i], MaxCrowd(p)) as real + Over(s, MaxCrowd(p)) as real;
    assert 1000.0 * oc' as real
      == 1000.0 * oc as real + 1000.0 * (Over(s, MaxCrowd(p)) as real - Over(segs[i], MaxCrowd(p)) as real);
  }

  /** With a non-negative crowd weight, raising one segment's level never lowers the score. */
  lemma CrowdMonotone(segs: seq<Segment>, p: PrefsDict, i: nat, c: int)
    requires i < |segs| && segs[i].crowd <= c
    requires CrowdWeight(p) >= 0.0
    ensures Score(segs[i := segs[i].(crowd := c)], p) >= Score(segs, p)
  {
    var s := segs[i].(crowd := c);
    ScoreUpdate(segs, p, i, s);
    var w, k := CrowdWeight(p), segs[i].crowd;
    assert w * (c - 1) as real - w * (k - 1) as real == w * (c - k) as real;
    assert w * (c - k) as real >= 0.0;
    assert SegBase(s, p) - SegBase(segs[i], p) == w * (c - k) as real;
    assert Over(s, MaxCrowd(p)) >= Over(segs[i], MaxCrowd(p));
  }

  /** A segment above max_crowd costs exactly 1000 plus its extra crowd terms
      more than the same segment capped at max_crowd. */
  lemma CrowdCapPenalty(segs: seq<Segment>, p: PrefsDict, i: nat)
    requires i < |segs| && segs[i].crowd > MaxCrowd(p)
    ensures var capped := segs[i := segs[i].(crowd := MaxCrowd(p))];
      Score(segs, p) == Score(capped, p) + 1000.0
        + CrowdWeight(p) * (segs[i].crowd - MaxCrowd(p)) as real
  {
    var s := segs[i].(crowd := MaxCrowd(p));
    ScoreUpdate(segs, p, i, s);
    var w, k, m := CrowdWeight(p), segs[i].crowd, MaxCrowd(p);
    assert w * (k - 1) as real - w * (m - 1) as real == w * (k - m) as real;
  }

  /** Lengthening one walk segment so the route's walking crosses the limit adds
      the extra minutes plus 999, once. */
  lemma WalkLimitPenalty(segs: seq<Segment>, p: PrefsDict, i: nat, d: real)
    requires i < |segs| && segs[i].mode == Walk
    requires WalkMinutes(segs) <= WalkLimit(p)
    requires WalkMinutes(segs[i := segs[i].(durationMin := d)]) > WalkLimit(p)
    ensures Score(segs[i := segs[i].(durationMin := d)], p)
      == Score(segs, p) + (d - segs[i].durationMin) + 999.0
  {
    var s := segs[i].(durationMin := d);
    var t := segs[i := s];
    BaseSumUpdate(segs, p, i, s);
    OverCountUpdate(segs, MaxCrowd(p), i, s);
    assert OverCount(t, MaxCrowd(p)) == OverCount(segs, MaxCrowd(p));
    assert SegBase(s, p) - SegBase(segs[i], p) == d - segs[i].durationMin;
    assert BaseSum(t, p) == BaseSum(segs, p) + (d - segs[i].durationMin);
    assert Score(t, p) == BaseSum(t, p) + 1000.0 * OverCount(t, MaxCrowd(p)) as real + 999.0;
    assert Score(segs, p) == BaseSum(segs, p) + 1000.0 * OverCount(segs, MaxCrowd(p)) as real;
  }

  /** A non-walk segment's duration never counts towards the walking total. */
  lemma NonWalkDurationIgnoredByWalkTotal(segs: seq<Segment>, i: nat, d: real)
    requires i < |segs| && segs[i].mode != Walk
    ensures WalkMinutes(segs[i := segs[i].(durationMin := d)]) == WalkMinutes(segs)
  {
    WalkMinutesUpdate(segs, i, segs[i].(durationMin := d));
  }

  /** The base sum is monotone in the per-segment base terms. */
  lemma {:induction false} BaseSumPointwise(segs: seq<Segment>, p: PrefsDict, q: PrefsDict)
    requires forall i :: 0 <= i < |segs| ==> SegBase(segs[i], p) <= SegBase(segs[i], q)
    ensures BaseSum(segs, p) <= BaseSum(segs, q)
    decreases |segs|
  {
    if segs != [] {
      BaseSumPointwise(segs[..|segs| - 1], p, q);
    }
  }

  /** A missing max_crowd counts as 4 and a missing walk_limit_min as 15. */
  lemma MissingLimitsTakeDefaults(segs: seq<Segment>, p: PrefsDict)
    requires p.maxCrowd.None? && p.walkLimitMin.None?
    ensures Score(segs, p) == Score(segs, p.(maxCrowd := Some(4), walkLimitMin := Some(15.0)))
  {
    var q := p.(maxCrowd := Some(4), walkLimitMin := Some(15.0));
    forall i | 0 <= i < |segs| ensures SegBase(segs[i], p) == SegBase(segs[i], q) { }
    BaseSumPointwise(segs, p, q);
    BaseSumPointwise(segs, q, p);
  }

  /** A mode missing from the bias table scores as if its bias were 0. */
  lemma MissingBiasCountsAsZero(segs: seq<Segment>, p: PrefsDict, m: Mode)
    requires Key(m) !in p.modeBias.GetOr(map[])
    ensures Score(segs, p) == Score(segs, p.(modeBias := Some(p.modeBias.GetOr(map[])[Key(m) := 0.0])))
  {
    var q := p.(modeBias := Some(p.modeBias.GetOr(map[])[Key(m) := 0.0]));
    forall i | 0 <= i < |segs| ensures SegBase(segs[i], p) == SegBase(segs[i], q) {
      assert Bias(p, segs[i].mode) == Bias(q, segs[i].mode);
    }
    BaseSumPointwise(segs, p, q);
    BaseSumPointwise(segs, q, p);
  }

  /** Raising the crowd weight never lowers the score of a route whose levels are at least 1. */
  lemma CrowdWeightMonotone(segs: seq<Segment>, p: PrefsDict, w: real)
    requires w >= CrowdWeight(p)
    requires forall i :: 0 <= i < |segs| ==> segs[i].crowd >= 1
    ensures Score(segs, p.(crowdWeight := Some(w))) >= Score(segs, p)
  {
    var q := p.(crowdWeight := Some(w));
    forall i | 0 <= i < |segs| ensures SegBase(segs[i], p) <= SegBase(segs[i], q) {
      var k := (segs[i].crowd - 1) as real;
      assert w * k - CrowdWeight(p) * k == (w - CrowdWeight(p)) * k;
      assert (w - CrowdWeight(p)) * k >= 0.0;
    }
    BaseSumPointwise(segs, p, q);
  }

  /** Subway 10 min at level 2, walk 5 min, bus 8 min at level 3, weight 2,
      zero biases: 29; with max_crowd 2 the bus leg adds 1000. */
  lemma ScoreExample()
    ensures var segs := [Segment(Subway, "", 0.0, 10.0, 2, None, []),
                         Segment(Walk, "", 0.0, 5.0, 1, None, []),
                         Segment(Bus, "", 0.0, 8.0, 3, None, [])];
      && Score(segs, Defaults) == 29.0
      && Score(segs, Defaults.(maxCrowd := Some(2))) == 1029.0
  {
    var a, b, c := Segment(Subway, "", 0.0, 10.0, 2, None, []),
                   Segment(Walk, "", 0.0, 5.0, 1, None, []),
                   Segment(Bus, "", 0.0, 8.0, 3, None, []);
    var segs, q := [a, b, c], Defaults.(maxCrowd := Some(2));
    assert segs[..2] == [a, b] && [a, b][..1] == [a] && [a][..0] == [];
    assert BaseSum([a], Defaults) == 12.0 && BaseSum([a, b], Defaults) == 17.0;
    assert BaseSum([a], q) == 12.0 && BaseSum([a, b], q) == 17.0;
    assert BaseSum(segs, Defaults) == 29.0 && BaseSum(segs, q) == 29.0;
    assert WalkMinutes([a]) == 0.0;
    assert WalkMinutes([a, b]) == 5.0;
    assert WalkMinutes(segs) == 5.0;
    assert Over(a, 4) == 0 && Over(b, 4) == 0 && Over(c, 4) == 0;
    assert Over(a, 2) == 0 && Over(b, 2) == 0 && Over(c, 2) == 1;
    assert OverCount([a], 4) == OverCount([], 4) + Over(a, 4);
    assert OverCount([a], 2) == OverCount([], 2) + Over(a, 2);
    assert OverCount([a, b], 4) == 0 && OverCount([a, b], 2) == 0;
    assert OverCount(segs, 4) == 0 && OverCount(segs, 2) == 1;
  }
}
