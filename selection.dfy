/** `choose_best_route`: every candidate is scored, the (score, index, route)
    triples are sorted stably by score, and the head of that order is returned
    with its 1-based index. */
module Selection {
  import opened Transit
  import opened Preferences
  import opened Scoring

  /** `k` is the first position holding the least value of `scores`. */
  ghost predicate FirstMinimum(scores: seq<real>, k: int) {
    && 0 <= k < |scores|
    && (forall j :: 0 <= j < |scores| ==> scores[k] <= scores[j])
    && (forall j :: 0 <= j < k ==> scores[j] > scores[k])
  }

  /** `order` lists every position of `scores` once, ordered by score and, among
      equal scores, by position: the order a stable sort by score produces. */
  ghost predicate StableOrder(scores: seq<real>, order: seq<int>) {
    && |order| == |scores|
    && (forall a :: 0 <= a < |order| ==> 0 <= order[a] < |scores|)
    && (forall j :: 0 <= j < |scores| ==> j in order)
    && (forall a, b :: 0 <= a < b < |order| ==>
          scores[order[a]] < scores[order[b]]
          || (scores[order[a]] == scores[order[b]] && order[a] < order[b]))
  }

  /** The head of a stable sort by score is the first minimum, so taking the
      first minimum selects what sorting and taking the head selects. */
  lemma StableSortHeadIsFirstMinimum(scores: seq<real>, order: seq<int>)
    requires scores != [] && StableOrder(scores, order)
    ensures FirstMinimum(scores, order[0])
  {
    var k := order[0];
    forall j | 0 <= j < |scores| && j != k
      ensures scores[k] < scores[j] || (scores[k] == scores[j] && k < j)
    {
      assert j in order;
      var b :| 0 <= b < |order| && order[b] == j;
      assert b != 0;
    }
  }

  /** There is one first minimum. */
  lemma FirstMinimumUnique(scores: seq<real>, k: int, l: int)
    requires FirstMinimum(scores, k) && FirstMinimum(scores, l)
    ensures k == l
  {
    assert scores[k] <= scores[l] && scores[l] <= scores[k];
  }

  function Scores(routes: seq<seq<Segment>>, p: PrefsDict): (s: seq<real>)
    ensures |s| == |routes| && forall i :: 0 <= i < |routes| ==> s[i] == Score(routes[i], p)
  {
    seq(|routes|, i requires 0 <= i < |routes| => Score(routes[i], p))
  }

  /** No candidates give (-1, []); otherwise the 1-based index of the first
      candidate of least score, and that candidate. */
  method ChooseBestRoute(routes: seq<seq<Segment>>, p: PrefsDict)
    returns (idx: int, best: seq<Segment>)
    ensures routes == [] ==> idx == -1 && best == []
    ensures routes != [] ==>
      && 1 <= idx <= |routes| && best == routes[idx - 1]
      && FirstMinimum(Scores(routes, p), idx - 1)
  {
    if routes == [] {
      return -1, [];
    }
    var scored: seq<real> := [];
    for i := 0 to |routes|
      invariant |scored| == i && forall j :: 0 <= j < i ==> scored[j] == Score(routes[j], p)
    {
      var s := ScoreRoute(routes[i], p);
      scored := scored + [s];
    }
    var k := 0;
    for i := 1 to |routes|
      invariant 0 <= k < i
      invariant forall j :: 0 <= j < i ==> scored[k] <= scored[j]
      invariant forall j :: 0 <= j < k ==> scored[j] > scored[k]
    {
      if scored[i] < scored[k] {
        k := i;
      }
    }
    assert scored == Scores(routes, p);
    idx, best := k + 1, routes[k];
  }
}
