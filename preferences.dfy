/** The preferences dictionary of the planner, its defaults, the shallow
    top-level merge used when loading it and when a session overrides it,
    and the migration of legacy bias keys. */
module Preferences {
  import opened Wrappers
  import opened Transit

  /** A per-mode table keyed by mode name; it may lack modes and hold other keys. */
  type BiasMap = map<string, real>

  /** The preferences dictionary: each known key is present (`Some`) or absent (`None`). */
  datatype PrefsDict = PrefsDict(
    crowdWeight: Option<real>,
    maxCrowd: Option<int>,
    walkLimitMin: Option<real>,
    modeBias: Option<BiasMap>,
    runs: Option<int>,
    modePenalty: Option<BiasMap>,      // legacy key, superseded by modeBias
    modePreference: Option<BiasMap>)   // legacy key, superseded by modeBias

  /** The dictionary with no keys: a preferences file that is absent, empty or unreadable. */
  const NoKeys: PrefsDict := PrefsDict(None, None, None, None, None, None, None)

  const ZeroBias: BiasMap := map["SUBWAY" := 0.0, "BUS" := 0.0, "WALK" := 0.0]

  /** DEFAULT_PREFS of the planner. */
  const Defaults: PrefsDict :=
    PrefsDict(Some(2.0), Some(4), Some(15.0), Some(ZeroBias), Some(0), None, None)

  /** `b.get(k, 0.0)` on a bias table. */
  function Get(b: BiasMap, k: string): real {
    if k in b then b[k] else 0.0
  }

  /** `r` is `{**base, **over}`: every key present in `over` has `over`'s value,
      whole, and every other key has `base`'s. */
  ghost predicate ShallowMerged(base: PrefsDict, over: PrefsDict, r: PrefsDict) {
    && r.crowdWeight == (if over.crowdWeight.Some? then over.crowdWeight else base.crowdWeight)
    && r.maxCrowd == (if over.maxCrowd.Some? then over.maxCrowd else base.maxCrowd)
    && r.walkLimitMin == (if over.walkLimitMin.Some? then over.walkLimitMin else base.walkLimitMin)
    && r.modeBias == (if over.modeBias.Some? then over.modeBias else base.modeBias)
    && r.runs == (if over.runs.Some? then over.runs else base.runs)
    && r.modePenalty == (if over.modePenalty.Some? then over.modePenalty else base.modePenalty)
    && r.modePreference == (if over.modePreference.Some? then over.modePreference else base.modePreference)
  }

  /** `{**base, **over}`: a key present in `over` wins, whole, over the same key
      of `base`; nested tables are never merged key by key. */
  function Merge(base: PrefsDict, over: PrefsDict): (r: PrefsDict)
    ensures ShallowMerged(base, over, r)
  {
    PrefsDict(
      Pick(base.crowdWeight, over.crowdWeight),
      Pick(base.maxCrowd, over.maxCrowd),
      Pick(base.walkLimitMin, over.walkLimitMin),
      Pick(base.modeBias, over.modeBias),
      Pick(base.runs, over.runs),
      Pick(base.modePenalty, over.modePenalty),
      Pick(base.modePreference, over.modePreference))
  }

  function Pick<T>(base: Option<T>, over: Option<T>): Option<T> {
    if over.Some? then over else base
  }

  /** Merging nothing in changes nothing, and merging into nothing copies. */
  lemma MergeIdentity(p: PrefsDict)
    ensures Merge(p, NoKeys) == p && Merge(NoKeys, p) == p
  {
  }

  /** Shallow merges compose: overriding twice is overriding once with the merged overrides. */
  lemma MergeAssociative(a: PrefsDict, b: PrefsDict, c: PrefsDict)
    ensures Merge(Merge(a, b), c) == Merge(a, Merge(b, c))
  {
  }

  /** `_migrate_bias`: a dictionary without `mode_bias` gets one computed as
      preference minus penalty per mode (missing entries count as 0); a
      dictionary that has one is returned unchanged. Legacy keys are kept. */
  function MigrateBias(p: PrefsDict): (r: PrefsDict)
    ensures r.modeBias.Some?
    ensures p.modeBias.Some? ==> r == p
    ensures p.modeBias.None? ==>
      && r.modeBias.value.Keys == ModeKeys
      && (forall m: Mode :: r.modeBias.value[Key(m)]
            == Get(p.modePreference.GetOr(map[]), Key(m)) - Get(p.modePenalty.GetOr(map[]), Key(m)))
      && r == p.(modeBias := r.modeBias)
  {
    if p.modeBias.Some? then p
    else
      var pen := p.modePenalty.GetOr(map[]);
      var pref := p.modePreference.GetOr(map[]);
      p.(modeBias := Some(map[
        "SUBWAY" := Get(pref, "SUBWAY") - Get(pen, "SUBWAY"),
        "BUS" := Get(pref, "BUS") - Get(pen, "BUS"),
        "WALK" := Get(pref, "WALK") - Get(pen, "WALK")]))
  }

  lemma MigrateBiasIdempotent(p: PrefsDict)
    ensures MigrateBias(MigrateBias(p)) == MigrateBias(p)
  {
  }

  /** `load_prefs` as written: the file's keys override the defaults at top level,
      and the migration is applied to the merged dictionary. */
  function LoadPrefs(data: PrefsDict): (r: PrefsDict)
    ensures r.crowdWeight.Some? && r.maxCrowd.Some? && r.walkLimitMin.Some?
    ensures r.modeBias.Some? && r.runs.Some?
    ensures r == Merge(Defaults, data)
  {
    MigrateBias(Merge(Defaults, data))
  }

  /** As written, the migration can never take effect: the defaults always
      supply `mode_bias`, so a file holding only the legacy keys loads with
      zero biases whatever its penalties and preferences say. */
  lemma LoadPrefsIgnoresLegacyKeys(data: PrefsDict)
    requires data.modeBias.None?
    ensures LoadPrefs(data).modeBias == Some(ZeroBias)
  {
  }

  /** A legacy file preferring buses by 3: the migration would give BUS bias 3,
      the loader as written gives 0. */
  lemma LegacyFileLosesItsBias()
    ensures var data := NoKeys.(modePreference := Some(map["BUS" := 3.0]));
      && MigrateBias(data).modeBias.value["BUS"] == 3.0
      && LoadPrefs(data).modeBias.value["BUS"] == 0.0
  {
  }

  /** `load_prefs` as evidently intended: the file data is migrated before the
      defaults fill in the keys it lacks. */
  function LoadPrefsMigrated(data: PrefsDict): (r: PrefsDict)
    ensures r.crowdWeight.Some? && r.maxCrowd.Some? && r.walkLimitMin.Some?
    ensures r.modeBias.Some? && r.runs.Some?
    ensures data.modeBias.Some? ==> r == LoadPrefs(data)
    ensures data.modeBias.None? ==>
      forall m: Mode :: Get(r.modeBias.value, Key(m))
        == Get(data.modePreference.GetOr(map[]), Key(m)) - Get(data.modePenalty.GetOr(map[]), Key(m))
    ensures r == LoadPrefs(data).(modeBias := r.modeBias)
  {
    Merge(Defaults, MigrateBias(data))
  }

  /** Without legacy keys the corrected loader agrees with the one as written. */
  lemma LoadersAgreeWithoutLegacyKeys(data: PrefsDict)
    requires data.modePenalty.None? && data.modePreference.None?
    ensures LoadPrefsMigrated(data) == LoadPrefs(data)
  {
  }

  /** The preferences `score_route` works with: the stored ones as `load_prefs`
      returns them, overridden key by key at top level by the session's, when
      the session supplies any. */
  function EffectivePrefs(stored: PrefsDict, session: Option<PrefsDict>): (r: PrefsDict)
    ensures session.None? ==> r == LoadPrefs(stored)
    ensures session.Some? ==> ShallowMerged(LoadPrefs(stored), session.value, r)
  {
    match session
    case None => LoadPrefs(stored)
    case Some(s) => Merge(LoadPrefs(stored), s)
  }

  /** The same resolution over the corrected loader. */
  function EffectivePrefsMigrated(stored: PrefsDict, session: Option<PrefsDict>): (r: PrefsDict)
    ensures session.None? ==> r == LoadPrefsMigrated(stored)
    ensures session.Some? ==> ShallowMerged(LoadPrefsMigrated(stored), session.value, r)
  {
    match session
    case None => LoadPrefsMigrated(stored)
    case Some(s) => Merge(LoadPrefsMigrated(stored), s)
  }

  /** As written, a legacy file's bias never reaches scoring; once corrected it does. */
  lemma LegacyBiasReachesScoringOnlyWhenMigrated()
    ensures var stored := NoKeys.(modePreference := Some(map["BUS" := 3.0]));
      && Get(EffectivePrefs(stored, None).modeBias.value, "BUS") == 0.0
      && Get(EffectivePrefsMigrated(stored, None).modeBias.value, "BUS") == 3.0
  {
  }

  /** A session that supplies `mode_bias` hides the difference: both resolutions
      give the same dictionary. */
  lemma SessionBiasMasksTheMigration(stored: PrefsDict, s: PrefsDict)
    requires s.modeBias.Some?
    ensures EffectivePrefs(stored, Some(s)) == EffectivePrefsMigrated(stored, Some(s))
  {
  }

  /** A session bias table replaces the stored one whole: a mode it omits has
      bias 0 in scoring even when the stored table gives it one. */
  lemma SessionBiasReplacesWhole(stored: PrefsDict, b: BiasMap, m: Mode)
    requires Key(m) !in b
    ensures var s := NoKeys.(modeBias := Some(b));
      Get(EffectivePrefs(stored, Some(s)).modeBias.value, Key(m)) == 0.0
  {
  }
}
