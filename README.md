# Observability engine of the astronomy planning assistant, in Dafny

The assistant plans one night of astrophotography. Its core is the
ephemeris engine in `ephemeris.py`. Given an observer, a list of target
names and a reference instant, it does the following:

- It resolves the names to sky positions. A planet name is first mapped to its barycentre.
- It takes the window from the next astronomical dusk to the following dawn. When twilight cannot be computed, it falls back to the next twelve hours.
- It samples that window every five minutes.
- For each target it reports:
  - the current altitude and azimuth;
  - the rise, transit and set times, or circumpolar notes in their place;
  - the catalogue angular size;
  - the observable window. This is the longest run of samples that are at or above 30 degrees during astronomical night. Its duration is that run plus one step. Its peak altitude is the highest over all qualifying samples.

Around this engine, `equipment.py` derives the pixel scale and field of view
of the imaging set-up, falling back to built-in defaults. `astro_agent.py`
does four things:

- it validates the configured location;
- it infers a seeing class from cloud cover;
- it reports a fixed record when no weather API key is given;
- it keeps the observable targets and ranks them by peak altitude, highest first.

Files:

- `wrappers.dfy`: `Option` and `Result`.
- `observability.dfy` (module `Observability`): the extraction steps. These are the mask, `np.where`, the split into contiguous blocks, the longest block (first one on ties), the peak, and the extractor that combines them. It includes the proof that the blocks are exactly the maximal runs of the mask.
- `ephemeris.dfy` (module `Ephemeris`): target resolution (`get_targets`), the twilight window, the time grid, the per-target entry and the batch (`calculate_ephemeris`).
- `equipment.dfy` (module `Equipment`): `calculate_equipment_params` as a method checked against a specification function, and `load_equipment_specs` over a small class for the specs dictionary.
- `astro_agent.dfy` (module `AstroAgent`): location validation, seeing, the weather record, the filter, and the sort. The sort is an in-place stable sort on an array, proved equal to a functional insertion sort. That function is proved sorted, a permutation, and stable.

How the model treats the libraries and numbers:

- Everything astropy, astroplan, Simbad and NumPy compute about the sky is an input. The `Sky` datatype carries one function per external computation:
  - name resolution;
  - the twilight solvers;
  - the Sun and Moon altitudes;
  - the alt-az transform;
  - `is_night`;
  - the rise, transit and set solvers;
  - the Simbad query;
  - `round`.
- A computation that raises is `None`, or `QueryRaises` for Simbad.
- Instants are whole minutes and angles are real degrees.
- The time grid is `start, start+5, ...` strictly before the end of the window.

Points where the model follows what the code does rather than what one might expect of it:

- The duration adds `time_grid[1] - time_grid[0]`. On a one-sample grid with a qualifying sample this raises, and the target becomes an error entry (`Fault.GridIndex`).
- A night test that raises inside the per-target block turns that target into an error entry (`Fault.NightTestFailed`), like a failed transform.
- Nothing forces the twilight window to end after it starts. If it does not, the grid is empty and every target is not observable.
- The angular size belongs to the per-target entry, not to the resolved target.

## Model

| member | source | states |
|---|---|---|
| Observability.Where | ephemeris.py:166 | an index is listed iff it is in range and masked, and the list is strictly ascending |
| Observability.Mask | ephemeris.py:158-163 | one flag per sample, set iff the altitude is at least 30 degrees and it is night there; some flag is set iff some sample qualifies |
| Observability.Split | ephemeris.py:172-174 | there are blocks iff there are indices; every block is non-empty and the first starts at the first index |
| Observability.SplitFlattens | ephemeris.py:172-174 | concatenating the blocks gives back the index list: nothing is lost or reordered |
| Observability.BlocksAreMaximalRuns | ephemeris.py:166-174 | the blocks are exactly the maximal runs of true samples, in increasing order, covering every masked index |
| Observability.FirstLongest | ephemeris.py:177 | the chosen block is at least as long as every block and strictly longer than every earlier one (the first maximum, as `max(key=len)` returns) |
| Observability.LongestRun | ephemeris.py:166-180 | when some sample is masked, the selected (start, end) is a maximal run of the mask and no run is longer |
| Observability.SeqMax | ephemeris.py:195 | the maximum of a non-empty sequence is one of its elements and bounds all of them |
| Observability.Select | ephemeris.py:193-194 | every masked altitude is selected, and everything selected is the altitude of a masked sample |
| Observability.Peak | ephemeris.py:193-195 | the peak is the altitude of some masked sample and bounds the altitudes of all masked samples, not only those of the longest run |
| Observability.Extract | ephemeris.py:158-202 | not observable iff no sample is masked; an error iff some sample is masked and the grid has fewer than two samples; otherwise start and end are the grid instants of the longest run, the duration is their difference plus `grid[1] - grid[0]`, and the peak is at least 30 degrees, bounds every masked altitude and is attained by one |
| Observability.ObservableDuration | ephemeris.py:179-185 | on a uniform grid, start <= end, end - start is the run length minus one times the step, and the duration is the run length times the step |
| Ephemeris.LookupCaseInsensitive | ephemeris.py:40 | planet names are mapped whatever their case; any other name is handed to the resolver unchanged |
| Ephemeris.DefaultPlanetKeys | ephemeris.py:15-27 | the four planets of the default list are looked up as their barycentres and the nine catalogue objects by their own names |
| Ephemeris.LookupKey | ephemeris.py:40 | the mapped barycentre for a planet name (any case), the name itself otherwise; the key is always the name or one of the four barycentres |
| Ephemeris.ResolveOne | ephemeris.py:38-47 | one target if the resolver succeeds on the lookup key, none otherwise |
| Ephemeris.Resolved | ephemeris.py:34-48 | the in-order targets of the names, never more than the names; its meaning is given by ResolvedSound, ResolvedComplete, ResolvedAppend and ResolvedAll |
| Ephemeris.GetTargets | ephemeris.py:34-48 | the loop builds exactly the in-order resolution of the names |
| Ephemeris.ResolvedAppend | ephemeris.py:37-47 | a failed name does not stop resolution: resolving a + b is resolving a, then b |
| Ephemeris.ResolvedSound | ephemeris.py:37-47 | every target comes from some name, with the mapped lookup key, the resolved position and the original name attached; never more targets than names |
| Ephemeris.ResolvedComplete | ephemeris.py:37-47 | every name that resolves contributes its target |
| Ephemeris.ResolvedAll | ephemeris.py:34-48 | no name is dropped iff every name resolves |
| Ephemeris.TwilightWindow | ephemeris.py:56-63 | dusk after now to the next dawn; if either solver raises, (now, now + 12 h) |
| Ephemeris.TimeGrid | ephemeris.py:66-67 | the grid is uniform with a five-minute step, starts at the window start, lies within [start, end) and reaches to the end |
| Ephemeris.LongWindowGrid | ephemeris.py:185 | a window longer than one step gives at least two samples, so the step can be read off the grid |
| Ephemeris.FallbackGrid | ephemeris.py:62-67 | the twelve-hour fallback window gives 144 samples |
| Ephemeris.TransitFields | ephemeris.py:110-115 | "N/A" exactly when there is no transit altitude, and that happens exactly when the transit solver or the transform at transit raises |
| Ephemeris.RiseField | ephemeris.py:106-109 | the "Circumpolar/Never Rises" note iff the rise solver raises, otherwise the rise instant |
| Ephemeris.SetField | ephemeris.py:116-119 | the "Circumpolar/Never Sets" note iff the set solver raises, otherwise the set instant |
| Ephemeris.SizeOf | ephemeris.py:121-152 | major axis, minor axis and unit are all present or all absent; present iff the name is not a planet, Simbad returned the columns and the major axis is finite and positive; then rounded, with the minor axis falling back to the major one and the unit "arcmin" |
| Ephemeris.GridAltitudes | ephemeris.py:156-157 | altitudes are computed iff the transform succeeds at every grid instant, and then match it sample by sample |
| Ephemeris.NightFlags | ephemeris.py:159-162 | the night flags exist iff the night test succeeds at every grid instant, and then match it sample by sample |
| Ephemeris.VisibilityOf | ephemeris.py:187-202 | observable iff the window is; not observable gives zero hours and no start, end or peak; otherwise start and end as extracted, the duration in hours and the peak, both rounded to 2 places |
| Ephemeris.ProcessTarget | ephemeris.py:95-96 | every entry, computed or error, carries the target's common name, or its catalogue name when it has none |
| Ephemeris.DisplayName | ephemeris.py:95 | the common name when the target has one, the resolver's name otherwise |
| Ephemeris.EntryKind | ephemeris.py:97-209 | a transform error entry iff the transform now or at any grid instant raises; a night-test error entry iff the transforms succeed and the night test raises at some grid instant; a grid-index error entry iff transforms and night test succeed, some sample qualifies and the grid has fewer than two samples |
| Ephemeris.EntrySentinels | ephemeris.py:103-119 | each circumpolar or "N/A" note appears exactly when its solver raises; `is_up_now` iff the current altitude is above 0 |
| Ephemeris.EntryVisibility | ephemeris.py:155-202 | observable iff some grid sample is at or above 30 degrees at night; otherwise zero hours and no start, end or peak; when observable, window start <= start <= end < window end |
| Ephemeris.ComputedWindow | ephemeris.py:155-202 | a computed entry's visibility is the extractor's result on the sampled altitudes and night flags |
| Ephemeris.WindowHours | ephemeris.py:185-189 | an observable window spanning whole steps reports its span plus one step, in hours, rounded |
| Ephemeris.EntryHours | ephemeris.py:179-189 | on a five-minute grid, the reported start and end are a whole number of steps apart and the hours are that span plus one step, over sixty, rounded |
| Ephemeris.EntryPeak | ephemeris.py:192-195 | the reported peak is the rounded maximum over every qualifying sample: at least 30 degrees, reached at some qualifying sample, not exceeded by any |
| Ephemeris.PlanetsHaveNoSize | ephemeris.py:125 | planets are never given an angular size |
| Ephemeris.BaseInfoOf | ephemeris.py:76-92 | the Sun and Moon altitudes are both present or both absent, present iff their computation succeeds; the window is the twilight window |
| Ephemeris.CalculateEphemeris | ephemeris.py:50-211 | one entry per target, in input order, each the per-target result on the grid over the reported window, with the target's name |
| Equipment.Scale | equipment.py:26-37 | a pixel scale is computed iff both sections carry specs and focal length and pixel size are non-zero numbers; it is pixel size over focal length times 206.265 and never zero |
| Equipment.Fov | equipment.py:39-43 | a field of view is computed only after a scale, iff both resolutions are non-zero numbers, from the unrounded scale |
| Equipment.ExpectedParams | equipment.py:17-57 | the default pixel scale when none is computed, else the scale rounded to 2 places; both FOV defaults when no FOV is computed, else both sides rounded to 1 place |
| Equipment.CalculateEquipmentParams | equipment.py:17-57 | the method, with its sequence of guards, its exception fall-through and its default filling, returns the expected parameters |
| Equipment.NoSectionsGiveDefaults | equipment.py:26-55 | a document lacking either section, or either `specs` object, yields the three defaults |
| Equipment.FovNeverMixed | equipment.py:52-55 | the two FOV values are both defaults or both computed from the same scale and resolutions |
| Equipment.FovUsesUnroundedScale | equipment.py:36-43 | the FOV is computed from the unrounded scale, not the rounded one reported |
| Equipment.ReferenceScale | equipment.py:8-15 | the reference set-up (405 mm, 2.9 micron, 3840 x 2160) gives a scale between 1.476 and 1.477 and a FOV between 94.5 and 94.55 by between 53.15 and 53.2 arcmin: to the reported precision 1.48 and 94.5 like the defaults, but 53.2 rather than the default height of 53.1 |
| Equipment.EquipmentSpecs.constructor | equipment.py:61 | the specs start empty, with no calculated entry |
| Equipment.EquipmentSpecs.Load | equipment.py:64-65 | loading sets the document and leaves the calculated entry alone |
| Equipment.EquipmentSpecs.SetCalculated | equipment.py:70 | sets the calculated entry and leaves the document alone |
| Equipment.LoadEquipmentSpecs | equipment.py:59-95 | always returns a calculated entry; a parsed file keeps its document and gets the expected parameters; a missing, unparsable or unreadable file gives empty specs with the defaults |
| AstroAgent.ValidateLocation | astro_agent.py:55-65 | accepted iff both values are set, numeric, latitude in [-90, 90] and longitude in [-180, 180], keeping the values; "not set" iff either variable is missing; "not a number" iff both set and either fails to parse |
| AstroAgent.SeeingOf | astro_agent.py:213-220 | Unknown iff cloud cover is -1; Good iff known and at most 20; Average iff above 20 and at most 60; Poor iff above 60 |
| AstroAgent.SeeingMonotone | astro_agent.py:213-220 | for known cloud covers, more cloud never gives a better seeing class |
| AstroAgent.WeatherFrom | astro_agent.py:205-230 | a fetched reply gives no error, cloud cover -1 when absent, and the seeing class of that cloud cover |
| AstroAgent.GetWeather | astro_agent.py:173-250 | without a key (absent or empty) the fixed key-missing record; every error record has cloud cover -1 and Unknown seeing; no error iff a key is given and the request succeeds |
| AstroAgent.ObservableOnly | astro_agent.py:499 | the kept entries are all observable and never outnumber the input |
| AstroAgent.ObservableOnlyMembers | astro_agent.py:499 | an entry is kept iff it is in the input and observable |
| AstroAgent.ObservableOnlyAppend | astro_agent.py:499 | the filter keeps the original order: filtering a + b is filtering a, then b |
| AstroAgent.Key | astro_agent.py:503 | the peak altitude of an observable entry that has one; 0 for an entry without a peak |
| AstroAgent.InsertDesc | astro_agent.py:503 | one insertion of the stable descending sort adds exactly one element; its order, content and stability are InsertDescSorted, InsertDescPermutation and InsertDescStable |
| AstroAgent.SortDesc | astro_agent.py:503 | the stable descending sort keeps the length; SortDescSorted, SortDescPermutation and SortDescStable give its meaning |
| AstroAgent.SortDescSorted | astro_agent.py:503 | the sorted list is non-increasing in peak altitude |
| AstroAgent.SortDescPermutation | astro_agent.py:503 | the sorted list is a permutation of its input |
| AstroAgent.SortDescStable | astro_agent.py:503 | entries with the same peak altitude keep their relative order |
| AstroAgent.InsertAt | astro_agent.py:503 | one insertion step on the array: the prefix up to i becomes the key-ordered insertion of a[i], and the rest is unchanged |
| AstroAgent.SortByPeak | astro_agent.py:503 | the in-place sort leaves the array holding the stable descending sort of its old contents |
| AstroAgent.RankObservable | astro_agent.py:499-503 | the ranked list is the observable entries, sorted by peak altitude highest first, a permutation of them, keeping the input order among equal peaks |

## Left out

- Astronomy: coordinate frames, the twilight, rise, transit and set solvers, planetary ephemerides and the Simbad service. These are library and network computations. The model takes their results, or their failure, as inputs through `Sky`.
- Floating point: altitudes and durations are reals. Instants are whole minutes. NaN appears only as the `NotFinite` Simbad and environment values, and masked table cells are treated as non-finite.
- `round`: a parameter, not Python's banker's rounding of binary floats.
- Ephemeris.Lower: lowers ASCII letters only. `str.lower` on other scripts is not modelled.
- The rise, transit and set `... if t else None` branches are left out. A scalar time returned by the solvers is always truthy, so those branches never produce `None`.
- Error entries carry a `Fault` kind (transform failed, night test failed, or grid index) instead of the exception text.
- Logging, the rich console output, the prompt construction, the language-model call, report writing, astronomy_agent.py and report.py are not part of this model.
- `run_astro_assistant` is not part of this model beyond its filter and sort. This includes its early return when no target resolves and its display of the first five ranked targets.
- AstroAgent.GetWeather: the HTTP request, its timeout and the per-status error texts are an input (`FetchFailed(description, message)`). The model checks the record's shape, not those texts.
- AstroAgent.ValidateLocation: the exit itself is left out. The model returns the reason as an error value.
- AstroAgent.Key: entries without a peak altitude get key 0. This case is unreachable after the filter.
- AstroAgent.SortByPeak: Python's Timsort is modelled as an insertion sort. A stable sort by a key has only one possible result, so the order is the same.
- Equipment.ExpectedParams: states the default pixel scale when none is computed, and the rounded scale otherwise. "Default exactly when not computed" cannot hold, because a computed scale can itself round to 1.48, as the reference set-up does.
- Equipment.LoadEquipmentSpecs: a JSON document whose top level is not an object, and Python booleans used as numbers, are not modelled. A field is absent, a number, or a value on which arithmetic raises.
