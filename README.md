# Route planner core, modelled in Dafny

`planner.py` is a route planner for Seoul public transport. It takes the legs of
a transit route from the ODsay API and turns each leg into a segment: subway,
bus or walk. Each segment gets a crowd level from 1 to 4, looked up in
historical tables. The subway table is keyed by day type, station and
half-hour; the bus table by route id and hour. Subway segments also get a
recommended car.

Candidate routes are scored. A segment costs its minutes, minus the user's bias
for its mode, plus the crowd weight times (level − 1). Each segment above
`max_crowd` adds 1000. Walking more than `walk_limit_min` minutes in total adds
999. The route with the least score wins; among equal scores the first one wins.

After the user chooses a route, the planner learns from the choice. The bias of
each mode the route uses rises by `lr`. The bias of each mode it does not use
falls by `lr / 2`. Every bias is then clamped to [-10, 10], and the run counter
goes up by one.

Preferences are a JSON dictionary. It is merged with defaults at the top level,
and a legacy `mode_penalty` / `mode_preference` pair is migrated into
`mode_bias`.

Modules, in dependency order:

- `Wrappers`: the `Option` and `Result` types.
- `Transit`: modes, their dictionary keys and the segment record.
- `Preferences`: the preference dictionary as a record of optional keys. It
  covers the defaults, the shallow `{**a, **b}` merge, the bias migration and
  loading.
- `Crowd`: the percentage→level and boardings→level mappings, the allowed
  recommended cars, the day type and the `HHMM` half-hour key.
- `SegmentBuilder`: raw legs into segments, including the exceptions a
  malformed leg raises.
- `Scoring`: the score as a specification function, the scoring loop proved
  against it, and the properties of the score.
- `Selection`: choosing the best route, and why the first minimum is the head of
  the stable sort.
- `Learning`: the learning update, with its two loops proved against a
  specification function, plus the behaviour under repeated learning.

Clocks, randomness and the CSV/JSON files are inputs to the model:

- The current time is an `Instant` parameter.
- The historical tables are function parameters that return `None` when no row
  matches (pandas' NaN mean) or when the lookup raises.
- The recommended car is chosen nondeterministically among the allowed cars.
- The parsed preference file is a `PrefsDict` parameter.

## Model

| member | source | states |
|---|---|---|
| `Transit.KeyInjective` | planner.py:264-280 | Modes and their dictionary keys "SUBWAY"/"BUS"/"WALK" correspond one to one, so a per-mode lookup by key never confuses two modes |
| `Preferences.Merge` | planner.py:144 | The shallow merge `{**base, **over}`: for each of the seven keys, an override that has the key supplies its value whole; otherwise the base's value is kept |
| `Preferences.MergeIdentity` | planner.py:144 | Merging with the empty dictionary on either side changes nothing |
| `Preferences.MergeAssociative` | planner.py:144 | Layered merges (defaults, then file, then session) may be grouped either way |
| `Preferences.MigrateBias` | planner.py:119-133 | Without `mode_bias`, the dictionary gains one: exactly the three mode keys, each preference minus penalty (a missing entry or table counts as 0), with every other key, legacy ones included, unchanged. With `mode_bias` present, the dictionary is returned as it is |
| `Preferences.MigrateBiasIdempotent` | planner.py:119-133 | Migrating twice is migrating once |
| `Preferences.LoadPrefs` | planner.py:135-146 | As written, loading yields every default key, and the result equals the plain merge of the defaults with the file data, so the migration step has no effect |
| `Preferences.LoadPrefsIgnoresLegacyKeys` | planner.py:111-118 | A file without `mode_bias` loads with the zero default biases, whatever its legacy keys say |
| `Preferences.LegacyFileLosesItsBias` | planner.py:119-146 | Concrete case: a legacy preference of 3 for BUS. The migration would give BUS bias 3; the loader as written gives 0 |
| `Preferences.LoadPrefsMigrated` | planner.py:119-146 | Corrected loader. It yields every default key. Its `mode_bias` is the file's own table when present; otherwise each mode gets preference minus penalty from the file. Every other key is as in the loader as written |
| `Preferences.LoadersAgreeWithoutLegacyKeys` | planner.py:135-146 | On files without legacy keys the corrected loader and the loader as written agree |
| `Preferences.EffectivePrefs` | planner.py:249-257 | As written: without session preferences, the stored ones as `load_prefs` returns them. With a session, every key the session has takes the session's value whole (a session `mode_bias` replaces the stored table), and every other key is the loaded one |
| `Preferences.EffectivePrefsMigrated` | planner.py:249-257 | The same resolution over the corrected loader `LoadPrefsMigrated`, stated key by key in the same way |
| `Preferences.LegacyBiasReachesScoringOnlyWhenMigrated` | planner.py:119-146 | Concrete case, with no session: a stored legacy preference of 3 for BUS gives BUS bias 0 as written and 3 once corrected |
| `Preferences.SessionBiasMasksTheMigration` | planner.py:249-257 | When the session supplies `mode_bias`, the resolution as written and the corrected one give the same dictionary |
| `Preferences.SessionBiasReplacesWhole` | planner.py:255-257 | A mode missing from the session's bias table scores with bias 0, even when the stored table gives it one |
| `Crowd.PctToLevel` | planner.py:314-321 | The level is 1..4. It is 1 exactly below 70 %, at most 2 exactly below 100 % and at most 3 exactly below 150 % |
| `Crowd.PctToLevelMonotone` | planner.py:314-321 | A higher percentage never gives a lower level |
| `Crowd.SubwayLevel` | planner.py:335-337 | A missing mean (no row, NaN or a lookup error) gives level 2; otherwise the level is `PctToLevel` of the mean |
| `Crowd.BusLevel` | planner.py:347-365 | The level is 1..4. A missing table or mean gives 2. Otherwise the boundaries are 10, 25 and 40 boardings, each as an if-and-only-if |
| `Crowd.BusLevelMonotone` | planner.py:357-363 | More boardings never give a lower level |
| `Crowd.AllowedCars` | planner.py:338-343 | The cars from which the recommendation is drawn: level 3 or more gives {1, 10}, level 2 gives {2, 9}, any lower level gives every car 1..10. The set is never empty and holds only cars 1..10 |
| `Crowd.SubwayCrowdLevel` | planner.py:324-344 | Returns the level `SubwayLevel` gives and a recommended car among those the level allows |
| `Crowd.DayType` | planner.py:79 | Monday to Friday are day type 1, Saturday is 2 and Sunday is 3, each as an if-and-only-if |
| `Crowd.HalfHour` | planner.py:328-329 | The minute rounds down to 0 or 30, the start of its half hour |
| `Crowd.TwoDigits` | planner.py:330 | `%H` / `%M` formatting: two decimal digit characters whose value, tens then units, is the number |
| `Crowd.TwoDigitsInjective` | planner.py:330 | Different numbers below 100 format differently |
| `Crowd.Hhmm` | planner.py:328-330 | The key has four characters: the two-digit hour, then the two-digit start of the minute's half hour, which is "00" below minute 30 and "30" from it |
| `Crowd.HhmmKeysHalfHours` | planner.py:328-330 | Two instants share an `HHMM` key exactly when they share the hour and the half hour |
| `Crowd.SubwayKey` | planner.py:327-332 | The subway lookup key is the station, the day type of the weekday (1..3) and the `HHMM` of the hour and the minute rounded down to the half hour |
| `SegmentBuilder.ModeOf` | planner.py:377-396 | `trafficType` 1 is subway exactly, 2 is bus exactly, and anything else, including a missing value, is a walk |
| `SegmentBuilder.Or` | planner.py:382-387 | Python's `a or b` on optional strings: a present non-empty `a` wins, otherwise `b` |
| `SegmentBuilder.SubwayName` | planner.py:380-387 | The subway label is `laneName` if present and non-empty, else `name` under the same test, else `subwayName` under the same test, else "" |
| `SegmentBuilder.LegFault` | planner.py:378-399 | Which legs raise. A walk never raises. A subway leg raises exactly when its lane list is present and empty, and then raises `IndexError`. A bus leg raises exactly when it lacks a non-empty lane list whose first lane has `busNo`, or lacks `sectionTime` or `distance`. The exception is the first missing one in that order: `lane`, then `IndexError`, then `busNo`, `sectionTime`, `distance` |
| `SegmentBuilder.Poly` | planner.py:405-408 | One point per stop, in order, as (y, x), which is (latitude, longitude) |
| `SegmentBuilder.SegmentOf` | planner.py:378-399 | Subway and bus segments keep the leg's minutes and metres (for subway, missing counts as 0). A subway segment is labelled by `SubwayName` of its first lane, and its level is `SubwayLevel` of the table's mean for that label, the day type and the `HHMM` key. A bus segment is labelled by the first lane's `busNo`, and its level is `BusLevel` of the table's mean for its `busID` (empty when missing) and the hour. A walk is labelled "도보"; its duration is its distance divided by 1.3 m/s × 60, and its level is 1. Every level is in 1..4 and the polyline is the leg's stops |
| `SegmentBuilder.PathsToSegs` | planner.py:369-420 | Succeeds exactly when no leg raises; then there is one segment per leg, in order, each the leg's transformation with a car recommended for subway legs only, among those its level allows. Otherwise the error names the first leg that raises and its exception: a missing `lane`, `busNo`, `sectionTime` or `distance` key, or an empty lane list. A bus CSV that fails to parse is not among these (see Left out) |
| `Scoring.ScoreRoute` | planner.py:258-288 | The loop computes `Score`: the summed per-segment terms, 1000 per segment over `max_crowd`, and 999 once when the walking total exceeds `walk_limit_min` |
| `Scoring.BaseSumUpdate` | planner.py:263-277 | Replacing one segment changes the summed per-segment terms by that segment's difference only |
| `Scoring.OverCountUpdate` | planner.py:280-281 | Replacing one segment changes the number of over-crowded segments by that segment's difference only |
| `Scoring.WalkMinutesUpdate` | planner.py:269-270 | Replacing one segment changes the walking total by that segment's walking difference only |
| `Scoring.ScoreUpdate` | planner.py:263-286 | A replacement that keeps the walking minutes changes the score by exactly the segment's base and over-crowd differences |
| `Scoring.EmptyRouteScore` | planner.py:258-288 | An empty route scores 0 when the walk limit is not negative |
| `Scoring.NoWalkNoWalkMinutes` | planner.py:269-270 | A route with no walk segment has 0 walking minutes, so with a walk limit of at least 0 it never pays the walking penalty |
| `Scoring.CrowdMonotone` | planner.py:277-281 | With a non-negative crowd weight, raising a segment's level never lowers the score |
| `Scoring.CrowdCapPenalty` | planner.py:277-281 | A segment above `max_crowd` costs exactly 1000 plus the weight times its excess, compared with the same segment at `max_crowd` |
| `Scoring.WalkLimitPenalty` | planner.py:269-286 | Lengthening a walk so the total crosses the limit costs the extra minutes plus exactly one 999 |
| `Scoring.NonWalkDurationIgnoredByWalkTotal` | planner.py:269-270 | Only walk segments count towards the walking total |
| `Scoring.BaseSumPointwise` | planner.py:273-277 | If every segment's term is at most its counterpart, so are the sums |
| `Scoring.MissingLimitsTakeDefaults` | planner.py:280-285 | A missing `max_crowd` scores as 4 and a missing `walk_limit_min` as 15 |
| `Scoring.MissingBiasCountsAsZero` | planner.py:260-275 | A mode missing from the bias table scores as bias 0 |
| `Scoring.CrowdWeightMonotone` | planner.py:261-277 | A higher crowd weight never lowers the score of a route whose levels are at least 1 |
| `Scoring.ScoreExample` | planner.py:258-288 | Subway 10 min at level 2, walk 5 min, bus 8 min at level 3, with the defaults: the score is 29. With `max_crowd` 2 it is 1029 |
| `Selection.StableSortHeadIsFirstMinimum` | planner.py:619-621 | The head of a stable sort by score is the first position of least score |
| `Selection.FirstMinimumUnique` | planner.py:619-621 | That position is unique, so the choice is determined |
| `Selection.Scores` | planner.py:619 | One score per candidate, in order, each the candidate's `Score` |
| `Selection.ChooseBestRoute` | planner.py:612-622 | No candidates give (-1, []). Otherwise the result is a 1-based index 1..n and that candidate, which is the first of least score, as the head of the stable sort by score is |
| `Learning.Clamp` | planner.py:558-559 | The result lies in [-10, 10]. A value inside is unchanged; a value above gives 10 and one below gives -10 |
| `Learning.NudgedAll` | planner.py:550-555 | After the three modes are visited, each mode's bias (0 if missing) has moved by +lr if the route uses it and −lr/2 if not. No other key changes, and the keys are the old ones plus the three modes |
| `Learning.ClampAll` | planner.py:558-559 | Every key of the table, including non-mode keys, is clamped; the key set is unchanged |
| `Learning.LearnedBiases` | planner.py:547-564 | The returned dictionary's bias table holds the old keys plus the three modes. Each mode's bias is clamp(old + step), each other key is only clamped, and every bias is in [-10, 10]. `runs` is one more than before (missing counts as 0), and no other key changes |
| `Learning.LearnFromChoice` | planner.py:542-564 | The two loops over the bias table, and the counter update, return exactly the dictionary `Learned` describes |
| `Learning.LearnedModeBias` | planner.py:551-559 | A mode's bias after learning is clamp(its bias before + its step) |
| `Learning.ClampRaise` | planner.py:553-559 | Raising an already clamped bias and clamping again is the same as capping the raised value at 10 |
| `Learning.ClampLower` | planner.py:555-559 | Lowering an already clamped bias and clamping again is the same as flooring the lowered value at -10 |
| `Learning.StepsIsProduct` | planner.py:553-555 | `n` repeated steps of `d` add up to `n × d` |
| `Learning.StepsHalved` | planner.py:555 | `n` steps of `d / 2` add up to half of `n` steps of `d` |
| `Learning.LearnedTimesBias` | planner.py:547-564 | Learning from the same route `n` times moves a mode's bias as `n` clamped steps of that mode's step, and adds `n` to the counter |
| `Learning.BiasAfterClosedForm` | planner.py:553-559 | Starting inside [-10, 10] with `lr` ≥ 0, `n` clamped steps give min(10, x + the sum of `n` steps of lr) for a used mode and max(-10, x − the sum of `n` steps of lr/2) for an unused one |
| `Learning.RepeatedLearningSteps` | planner.py:542-564 | Learning from the same route `n` times gives that closed form for every mode's bias, and adds `n` to the counter |
| `Learning.RepeatedLearningConverges` | planner.py:542-564 | Repeating the same choice `n` times drives a used mode's bias to min(10, x + n·lr) and an unused mode's to max(-10, x − n·lr/2); the counter records every repetition |
| `Learning.RepeatedLearningSaturates` | planner.py:542-564 | Once n·lr ≥ 10 − x a used mode's bias is exactly 10, and once n·lr/2 ≥ x + 10 an unused mode's is exactly -10 |
| `Learning.SubwayOnlyAsymmetry` | planner.py:551-555 | For a subway-only route with no bound reached, SUBWAY rises by exactly `lr`, and BUS and WALK fall by exactly `lr / 2` |

## Left out

- HTTP calls (`geocode`, `odsay_best_route`, `odsay_all_routes`), API keys and logging: network and I/O. The legs they return are the model's input.
- Reading and writing `prefs.json` and `history.csv` (`save_prefs`, `append_history`), and the `try` around the JSON parse in `load_prefs`: file I/O. A missing file, one that fails to parse, and one whose JSON is falsy are the empty dictionary passed to `LoadPrefs`.
- `Preferences.LoadPrefs`: a `prefs.json` whose JSON is a truthy non-object (`[1]`, `3`, `"x"`) makes the merge raise `TypeError`, outside the `try`, so `load_prefs` then raises instead of returning a dictionary. The model's input is always a dictionary, so this failure is not modelled.
- `_load_sub_df`, `_load_bus_df` and the pandas filtering and means: they are the table parameters. A missing file, no rows, NaN and a failing `int(route_id)` appear as `None`, and so does any subway-table failure, since it happens inside the `try`.
- `SegmentBuilder.PathsToSegs`: a bus CSV that exists but fails to parse is not modelled. `bus_crowd_level` loads it before its `try`, so the error leaves `paths_to_segs` on the first bus leg. The model's bus table always answers.
- `random.choice` / `random.randint`: the car is any allowed one, not a distribution.
- `datetime.now()`: it is a parameter.
- `haversine`, `crowd_gradient_color`, `draw_map`, `debug_print_scores`, `main` and all of `plannerui.py`: presentation and glue outside the planning core.
- `SegmentBuilder.SegmentOf`: durations are not passed through `round(dur, 2)`, since floating point is not modelled; durations and distances are exact reals.
- `SegmentBuilder.PathsToSegs`: leaves out the unused `prefs` parameter of `paths_to_segs` and its `load_prefs()` call, which do not affect the segments.
- `SegmentBuilder.PathsToSegs`: non-numeric or missing `x`/`y` in a stop, and a `lane` value that is not a list, are not modelled. JSON values are assumed to have the types the code expects.
- `SegmentBuilder.PathsToSegs`: the `allowed` check never fires. Every leg is labelled SUBWAY, BUS or WALK, and any `trafficType` other than 1 or 2 becomes WALK, so every leg yields a segment. The model has no skip branch for that reason.
- `PrefsDict` models the known keys only. An unknown key in the file survives the merge unchanged in the source; the model has no place for it. Values are assumed to have the types the code converts them to (`float(...)`, `int(...)`), and a failing conversion is not modelled.
- `Selection.ChooseBestRoute`: finds the head of the stable sort by scanning. The rest of the sorted list is discarded by the source and is not built. `Selection.StableSortHeadIsFirstMinimum` connects the two.
- `Scoring.ScoreRoute`: takes the already merged preferences as its parameter. `Preferences.EffectivePrefs` computes them as written, from `load_prefs`, and `Preferences.EffectivePrefsMigrated` from the corrected loader (see Findings).
- `Learning.LearnFromChoice`: takes the loaded preferences as a parameter instead of calling `load_prefs()`, and returns the dictionary without saving it.
- `Learning.LearnFromChoice`: Dafny has no default arguments, so the `lr = 0.5` default of `learn_from_choice` is the constant `Learning.DefaultRate`, which a caller passes explicitly.
- Integer `crowd` and `max_crowd` are compared as in Python. Mixed int/float comparisons are exact, as reals.

## Findings

| source | as written | input that shows it | evidently intended | confidence | as-written member | corrected member |
|---|---|---|---|---|---|---|
| planner.py:144-145 | `load_prefs` merges the defaults in before migrating. The defaults always contain `mode_bias`, so `_migrate_bias` never converts a legacy `mode_penalty` / `mode_preference`. | A preference file `{"mode_preference": {"BUS": 3.0}}` loads with BUS bias 0.0 instead of 3.0 | Migrate the file's data first, then fill in the defaults | not executed | `Preferences.LoadPrefs`, `Preferences.LegacyFileLosesItsBias` | `Preferences.LoadPrefsMigrated`, `Preferences.EffectivePrefsMigrated` |
