/** `learn_from_choice`: after a route is chosen, the bias of each mode it uses
    rises by `lr`, the bias of each mode it does not use falls by `lr / 2`,
    every bias is clamped to [-10, 10] and the run counter goes up by one.
    Saving the result is the caller's business: the new dictionary is returned. */
module Learning {
  import opened Wrappers
  import opened Transit
  import opened Preferences

  /** The learning rate `learn_from_choice` uses when its caller gives none. */
  const DefaultRate: real := 0.5

  /** `max(-10.0, min(10.0, x))`. */
  function Clamp(x: real): (y: real)
    ensures -10.0 <= y <= 10.0
    ensures -10.0 <= x <= 10.0 ==> y == x
    ensures x > 10.0 ==> y == 10.0
    ensures x < -10.0 ==> y == -10.0
  {
    var upper := if 10.0 <= x then 10.0 else x;
    if -10.0 >= upper then -10.0 else upper
  }

  /** The nudge a mode gets: `lr` when used, `-lr / 2` when not. */
  function Step(used: bool, lr: real): real {
    if used then lr else -lr / 2.0
  }

  /** The bias table learning starts from; zero biases when the dictionary has none. */
  function StartBias(p: PrefsDict): BiasMap {
    p.modeBias.GetOr(ZeroBias)
  }

  /** The table after nudging the first `n` modes of AllModes, in order. */
  function NudgedUpTo(b: BiasMap, used: set<Mode>, lr: real, n: nat): BiasMap
    requires n <= |AllModes|
  {
    if n == 0 then b
    else
      var c := NudgedUpTo(b, used, lr, n - 1);
      var m := AllModes[n - 1];
      c[Key(m) := Get(c, Key(m)) + Step(m in used, lr)]
  }

  /** Nudging all three modes: each mode's entry (0 when missing) moves by its
      step; every other key is untouched. */
  lemma NudgedAll(b: BiasMap, used: set<Mode>, lr: real)
    ensures var c := NudgedUpTo(b, used, lr, 3);
      && c.Keys == b.Keys + ModeKeys
      && (forall m: Mode :: c[Key(m)] == Get(b, Key(m)) + Step(m in used, lr))
      && (forall k :: k in b && k !in ModeKeys ==> c[k] == b[k])
  {
    var c1 := NudgedUpTo(b, used, lr, 1);
    var c2 := NudgedUpTo(b, used, lr, 2);
    var c3 := NudgedUpTo(b, used, lr, 3);
    assert AllModes[0] == Subway && AllModes[1] == Bus && AllModes[2] == Walk;
    assert NudgedUpTo(b, used, lr, 0) == b;
    assert c1 == b["SUBWAY" := Get(b, "SUBWAY") + Step(Subway in used, lr)];
    assert c2 == c1["BUS" := Get(b, "BUS") + Step(Bus in used, lr)];
    assert c3 == c2["WALK" := Get(b, "WALK") + Step(Walk in used, lr)];
  }

  function ClampAll(b: BiasMap): (c: BiasMap)
    ensures c.Keys == b.Keys
    ensures forall k :: k in b ==> c[k] == Clamp(b[k])
  {
    map k | k in b :: Clamp(b[k])
  }

  /** The dictionary `learn_from_choice` returns for a chosen route. */
  function Learned(segs: seq<Segment>, p: PrefsDict, lr: real): PrefsDict {
    p.(modeBias := Some(ClampAll(NudgedUpTo(StartBias(p), UsedModes(segs), lr, 3))),
       runs := Some(p.runs.GetOr(0) + 1))
  }

  /** After learning, the bias table holds the old keys and the three modes; each
      mode's bias (0 when missing) has moved by its step and been clamped, every
      other key has only been clamped, every bias lies in [-10, 10], the counter
      is one higher and no other key has changed. */
  lemma LearnedBiases(segs: seq<Segment>, p: PrefsDict, lr: real)
    ensures var r := Learned(segs, p, lr);
      && r.modeBias.Some?
      && r.modeBias.value.Keys == StartBias(p).Keys + ModeKeys
      && (forall m: Mode ::
            r.modeBias.value[Key(m)] == Clamp(Get(StartBias(p), Key(m)) + Step(m in UsedModes(segs), lr)))
      && (forall k :: k in StartBias(p) && k !in ModeKeys ==> r.modeBias.value[k] == Clamp(StartBias(p)[k]))
      && (forall k :: k in r.modeBias.value ==> -10.0 <= r.modeBias.value[k] <= 10.0)
      && r.runs == Some(p.runs.GetOr(0) + 1)
      && r == p.(modeBias := r.modeBias, runs := r.runs)
  {
    NudgedAll(StartBias(p), UsedModes(segs), lr);
  }

  /** `learn_from_choice` on the loaded preferences, with its two loops over the bias table. */
  method LearnFromChoice(segs: seq<Segment>, prefs: PrefsDict, lr: real) returns (r: PrefsDict)
    ensures r == Learned(segs, prefs, lr)
  {
    var bias := StartBias(prefs);
    ghost var start := bias;
    var used := UsedModes(segs);
    for i := 0 to |AllModes|
      invariant bias == NudgedUpTo(start, used, lr, i)
    {
      var m := AllModes[i];
      ghost var before := bias;
      if m in used {
        bias := bias[Key(m) := Get(bias, Key(m)) + lr];
      } else {
        bias := bias[Key(m) := Get(bias, Key(m)) - lr / 2.0];
      }
      assert bias == before[Key(m) := Get(before, Key(m)) + Step(m in used, lr)];
    }
    ghost var nudged := bias;
    var todo := bias.Keys;
    while todo != {}
      invariant todo <= nudged.Keys && bias.Keys == nudged.Keys
      invariant forall k :: k in bias ==> bias[k] == if k in todo then nudged[k] else Clamp(nudged[k])
      decreases |todo|
    {
      var k :| k in todo;
      bias := bias[k := Clamp(bias[k])];
      todo := todo - {k};
    }
    assert bias == ClampAll(nudged);
    r := prefs.(modeBias := Some(bias), runs := Some(prefs.runs.GetOr(0) + 1));
    assert r.modeBias.value == ClampAll(NudgedUpTo(StartBias(prefs), UsedModes(segs), lr, 3));
  }

  /** Learning from the same route `n` times. */
  function LearnedTimes(segs: seq<Segment>, p: PrefsDict, lr: real, n: nat): PrefsDict {
    if n == 0 then p else Learned(segs, LearnedTimes(segs, p, lr, n - 1), lr)
  }

  function Min(a: real, b: real): real { if a <= b then a else b }
  function Max(a: real, b: real): real { if a >= b then a else b }

  /** One mode's bias after learning: its old bias (0 when missing) moved by its step, clamped. */
  lemma LearnedModeBias(segs: seq<Segment>, p: PrefsDict, lr: real, m: Mode)
    ensures Get(StartBias(Learned(segs, p, lr)), Key(m))
      == Clamp(Get(StartBias(p), Key(m)) + Step(m in UsedModes(segs), lr))
  {
    LearnedBiases(segs, p, lr);
  }

  lemma ClampRaise(a: real, lr: real)
    requires a >= -10.0 && lr >= 0.0
    ensures Clamp(Min(10.0, a) + lr) == Min(10.0, a + lr)
  {
  }

  lemma ClampLower(a: real, lr: real)
    requires a <= 10.0 && lr >= 0.0
    ensures Clamp(Max(-10.0, a) - lr / 2.0) == Max(-10.0, a - lr / 2.0)
  {
  }

  /** `n` steps of `d`, added up. */
  function Steps(n: nat, d: real): real {
    if n == 0 then 0.0 else Steps(n - 1, d) + d
  }

  lemma {:induction false} StepsIsProduct(n: nat, d: real)
    ensures Steps(n, d) == n as real * d
  {
    if n > 0 {
      StepsIsProduct(n - 1, d);
      assert (n - 1) as real * d + d == n as real * d;
    }
  }

  /** Halving the step halves the total. */
  lemma {:induction false} StepsHalved(n: nat, d: real)
    ensures Steps(n, d / 2.0) == Steps(n, d) / 2.0
  {
    if n > 0 {
      StepsHalved(n - 1, d);
    }
  }

  lemma {:induction false} StepsNonNegative(n: nat, d: real)
    requires d >= 0.0
    ensures Steps(n, d) >= 0.0
  {
    if n > 0 {
      StepsNonNegative(n - 1, d);
    }
  }

  /** A bias after `n` learning steps of the same kind. */
  function BiasAfter(x: real, used: bool, lr: real, n: nat): real {
    if n == 0 then x else Clamp(BiasAfter(x, used, lr, n - 1) + Step(used, lr))
  }

  /** Learning `n` times from one route moves each mode's bias as `n` steps of its kind. */
  lemma {:induction false} LearnedTimesBias(segs: seq<Segment>, p: PrefsDict, lr: real, n: nat, m: Mode)
    ensures Get(StartBias(LearnedTimes(segs, p, lr, n)), Key(m))
      == BiasAfter(Get(StartBias(p), Key(m)), m in UsedModes(segs), lr, n)
    ensures LearnedTimes(segs, p, lr, n).runs.GetOr(0) == p.runs.GetOr(0) + n
  {
    if n > 0 {
      LearnedTimesBias(segs, p, lr, n - 1, m);
      LearnedModeBias(segs, LearnedTimes(segs, p, lr, n - 1), lr, m);
    }
  }

  /** From inside the bounds, `n` raising steps add `n` steps of `lr`, capped at 10,
      and `n` lowering steps take off `n` steps of `lr / 2`, floored at -10. */
  lemma {:induction false} BiasAfterClosedForm(x: real, used: bool, lr: real, n: nat)
    requires lr >= 0.0 && -10.0 <= x <= 10.0
    ensures BiasAfter(x, used, lr, n)
      == if used then Min(10.0, x + Steps(n, lr)) else Max(-10.0, x - Steps(n, lr / 2.0))
  {
    if n > 0 {
      BiasAfterClosedForm(x, used, lr, n - 1);
      if used {
        StepsNonNegative(n - 1, lr);
        ClampRaise(x + Steps(n - 1, lr), lr);
      } else {
        StepsNonNegative(n - 1, lr / 2.0);
        ClampLower(x - Steps(n - 1, lr / 2.0), lr);
      }
    }
  }

  /** Repeating the same choice `n` times drives a used mode's bias up towards 10
      by `n * lr`, and an unused mode's down towards -10 by `n * lr / 2`, never
      past the bounds; the counter records every repetition. */
  lemma RepeatedLearningConverges(segs: seq<Segment>, p: PrefsDict, lr: real, n: nat, m: Mode)
    requires lr >= 0.0
    requires -10.0 <= Get(StartBias(p), Key(m)) <= 10.0
    ensures var x, q := Get(StartBias(p), Key(m)), LearnedTimes(segs, p, lr, n);
      && Get(StartBias(q), Key(m))
           == (if m in UsedModes(segs) then Min(10.0, x + n as real * lr)
               else Max(-10.0, x - n as real * lr / 2.0))
      && q.runs.GetOr(0) == p.runs.GetOr(0) + n
  {
    RepeatedLearningSteps(segs, p, lr, n, m);
    StepsIsProduct(n, lr);
    StepsHalved(n, lr);
  }

  /** The same, with the movement as `n` added steps. */
  lemma RepeatedLearningSteps(segs: seq<Segment>, p: PrefsDict, lr: real, n: nat, m: Mode)
    requires lr >= 0.0
    requires -10.0 <= Get(StartBias(p), Key(m)) <= 10.0
    ensures var x, q := Get(StartBias(p), Key(m)), LearnedTimes(segs, p, lr, n);
      && Get(StartBias(q), Key(m))
           == (if m in UsedModes(segs) then Min(10.0, x + Steps(n, lr)) else Max(-10.0, x - Steps(n, lr / 2.0)))
      && q.runs.GetOr(0) == p.runs.GetOr(0) + n
  {
    LearnedTimesBias(segs, p, lr, n, m);
    BiasAfterClosedForm(Get(StartBias(p), Key(m)), m in UsedModes(segs), lr, n);
  }

  /** Enough repetitions pin a used mode's bias at exactly 10 and an unused
      mode's at exactly -10. */
  lemma RepeatedLearningSaturates(segs: seq<Segment>, p: PrefsDict, lr: real, n: nat, m: Mode)
    requires lr >= 0.0
    requires -10.0 <= Get(StartBias(p), Key(m)) <= 10.0
    ensures var x, b := Get(StartBias(p), Key(m)), Get(StartBias(LearnedTimes(segs, p, lr, n)), Key(m));
      && (m in UsedModes(segs) && n as real * lr >= 10.0 - x ==> b == 10.0)
      && (m !in UsedModes(segs) && n as real * lr / 2.0 >= x + 10.0 ==> b == -10.0)
  {
    RepeatedLearningConverges(segs, p, lr, n, m);
  }

  /** A route using only the subway: its bias rises by exactly `lr` and the others'
      fall by exactly `lr / 2`, as long as none reaches a bound. */
  lemma SubwayOnlyAsymmetry(segs: seq<Segment>, p: PrefsDict, lr: real)
    requires UsedModes(segs) == {Subway}
    requires -10.0 <= Get(StartBias(p), "SUBWAY") + lr <= 10.0
    requires -10.0 <= Get(StartBias(p), "BUS") - lr / 2.0 <= 10.0
    requires -10.0 <= Get(StartBias(p), "WALK") - lr / 2.0 <= 10.0
    ensures var b := StartBias(Learned(segs, p, lr));
      && Get(b, "SUBWAY") == Get(StartBias(p), "SUBWAY") + lr
      && Get(b, "BUS") == Get(StartBias(p), "BUS") - lr / 2.0
      && Get(b, "WALK") == Get(StartBias(p), "WALK") - lr / 2.0
  {
    LearnedBiases(segs, p, lr);
    assert Key(Subway) == "SUBWAY" && Key(Bus) == "BUS" && Key(Walk) == "WALK";
  }
}
