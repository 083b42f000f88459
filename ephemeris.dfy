/**
 * Target resolution and the nightly ephemeris of ephemeris.py.
 *
 * Everything astropy, astroplan and Simbad compute is an input: a `Sky`
 * holds one function per external computation, and a computation that raises
 * yields `None` (or `QueryRaises` for the Simbad query). Instants are whole
 * minutes, angles are degrees, and Python's `round(x, n)` is the `round`
 * function carried by the `Sky`.
 */
module Ephemeris {
  import opened Wrappers
  import opened Observability

  /** PLANET_MAPPING in ephemeris.py: lower-case planet name to the body astropy knows. */
  const PlanetMapping: map<string, string> := map[
    "jupiter" := "jupiter barycenter",
    "saturn" := "saturn barycenter",
    "mars" := "mars barycenter",
    "venus" := "venus barycenter"
  ]

  /** DEFAULT_TARGETS in ephemeris.py: the candidate list used when none is given. */
  const DefaultTargets: seq<string> := [
    "M31", "M42", "M45", "M13", "M51", "M81", "M101",
    "NGC 2244", "NGC 7000",
    "Jupiter", "Saturn", "Mars", "Venus"
  ]

  /** Time-grid resolution: five minutes. */
  const Step: nat := 5

  /** The fallback window when twilight cannot be computed: twelve hours. */
  const HalfDay: nat := 12 * 60

  const NeverRises: string := "Circumpolar/Never Rises"
  const NeverSets: string := "Circumpolar/Never Sets"
  const NoTransit: string := "N/A"
  const Arcmin: string := "arcmin"

  /** `str.lower()` on ASCII letters. */
  function Lower(s: string): (r: string)
    ensures |r| == |s|
    ensures forall i :: 0 <= i < |s| ==> (r[i] != s[i] <==> 'A' <= s[i] <= 'Z')
  {
    seq(|s|, i requires 0 <= i < |s| => if 'A' <= s[i] <= 'Z' then (s[i] as int + 32) as char else s[i])
  }

  /** The name handed to the resolver: the mapped body for a planet, the name itself otherwise. */
  function LookupKey(name: string): (key: string)
    ensures Lower(name) in PlanetMapping ==> key == PlanetMapping[Lower(name)]
    ensures Lower(name) !in PlanetMapping ==> key == name
    ensures key == name || key in PlanetMapping.Values
  {
    if Lower(name) in PlanetMapping then PlanetMapping[Lower(name)] else name
  }

  /**
   * Planet names are matched without regard to case, and every other name
   * goes to the resolver exactly as written.
   */
  lemma LookupCaseInsensitive(a: string, b: string)
    requires Lower(a) == Lower(b)
    ensures Lower(a) in PlanetMapping ==> LookupKey(a) == LookupKey(b) == PlanetMapping[Lower(a)]
    ensures Lower(a) !in PlanetMapping ==> LookupKey(a) == a && LookupKey(b) == b
  {
  }

  /**
   * The four planets of the default list are looked up as their
   * barycentres, and the nine catalogue objects by their own names.
   */
  lemma DefaultPlanetKeys()
    ensures forall i :: 0 <= i < 9 ==> LookupKey(DefaultTargets[i]) == DefaultTargets[i]
    ensures LookupKey(DefaultTargets[9]) == "jupiter barycenter"
    ensures LookupKey(DefaultTargets[10]) == "saturn barycenter"
    ensures LookupKey(DefaultTargets[11]) == "mars barycenter"
    ensures LookupKey(DefaultTargets[12]) == "venus barycenter"
  {
    assert Lower("M31") == "m31";
    assert Lower("M42") == "m42";
    assert Lower("M45") == "m45";
    assert Lower("M13") == "m13";
    assert Lower("M51") == "m51";
    assert Lower("M81") == "m81";
    assert Lower("M101") == "m101";
    assert Lower("NGC 2244") == "ngc 2244";
    assert Lower("NGC 7000") == "ngc 7000";
    assert Lower("Jupiter") == "jupiter";
    assert Lower("Saturn") == "saturn";
    assert Lower("Mars") == "mars";
    assert Lower("Venus") == "venus";
  }

  datatype Coord = Coord(ra: real, dec: real)

  /** A horizontal position: altitude and azimuth in degrees. */
  datatype AltAz = AltAz(alt: real, az: real)

  /** A catalogue value that may be NaN or masked. */
  datatype Measure = NotFinite | Finite(v: real)

  /** What the Simbad query for a name gives back. */
  datatype SimbadReply =
    | QueryRaises
    | NoResult                 // None or an empty table
    | MissingColumns           // no galdim_majaxis / galdim_minaxis column
    | Row(maj: Measure, min: Measure)

  /**
   * The external computations: name resolution, the twilight solvers, the
   * Sun and Moon altitudes, coordinate transforms, the night test, the
   * rise/transit/set solvers, the Simbad query and Python's `round`.
   */
  datatype Sky = Sky(
    fromName: string -> Option<Coord>,
    eveningTwilight: int -> Option<int>,
    morningTwilight: int -> Option<int>,
    sunMoonAltitudes: int -> Option<(real, real)>,
    altAz: (Coord, int) -> Option<AltAz>,
    isNight: int -> Option<bool>,
    riseTime: (Coord, int) -> Option<int>,
    transitTime: (Coord, int) -> Option<int>,
    setTime: (Coord, int) -> Option<int>,
    simbad: string -> SimbadReply,
    round: (real, nat) -> real)

  /**
   * A resolved target: the name given to the resolver, the common name
   * `get_targets` attaches, and the coordinates.
   */
  datatype Target = Target(lookupName: string, commonName: Option<string>, coord: Coord)

  /** `getattr(target, 'common_name', target.name)`. */
  function DisplayName(t: Target): (name: string)
    ensures t.commonName.Some? ==> name == t.commonName.value
    ensures t.commonName.None? ==> name == t.lookupName
  {
    t.commonName.GetOr(t.lookupName)
  }

  // ---------------------------------------------------------------------
  // get_targets
  // ---------------------------------------------------------------------

  /** The target `name` resolves to, if the resolver succeeds. */
  function ResolveOne(sky: Sky, name: string): (r: seq<Target>)
    ensures |r| <= 1
    ensures |r| == 1 <==> sky.fromName(LookupKey(name)).Some?
  {
    match sky.fromName(LookupKey(name))
    case None => []
    case Some(c) => [Target(LookupKey(name), Some(name), c)]
  }

  /** The targets `get_targets` builds from `names`, in order. */
  function Resolved(sky: Sky, names: seq<string>): (targets: seq<Target>)
    ensures |targets| <= |names|
  {
    if |names| == 0 then []
    else Resolved(sky, names[..|names| - 1]) + ResolveOne(sky, names[|names| - 1])
  }

  /** t is what resolving `name` produces. */
  predicate ResolvesTo(sky: Sky, name: string, t: Target) {
    && sky.fromName(LookupKey(name)) == Some(t.coord)
    && t.lookupName == LookupKey(name)
    && t.commonName == Some(name)
  }

  /**
   * `get_targets`: resolve each name in turn, keep those that resolve with
   * their original name attached, skip the others and carry on.
   */
  method GetTargets(sky: Sky, names: seq<string>) returns (targets: seq<Target>)
    ensures targets == Resolved(sky, names)
  {
    targets := [];
    var i := 0;
    while i < |names|
      invariant 0 <= i <= |names|
      invariant targets == Resolved(sky, names[..i])
    {
      var key := LookupKey(names[i]);
      match sky.fromName(key) {
        case Some(c) =>
          targets := targets + [Target(key, Some(names[i]), c)];
        case None =>
      }
      assert names[..i + 1][..i] == names[..i];
      i := i + 1;
    }
    assert names[..|names|] == names;
  }

  /** Resolving a list in two parts resolves each part in order: later names are still tried. */
  lemma {:induction false} ResolvedAppend(sky: Sky, a: seq<string>, b: seq<string>)
    ensures Resolved(sky, a + b) == Resolved(sky, a) + Resolved(sky, b)
    decreases |b|
  {
    if |b| == 0 {
      assert a + b == a;
    } else {
      var b' := b[..|b| - 1];
      assert (a + b)[..|a + b| - 1] == a + b';
      ResolvedAppend(sky, a, b');
    }
  }

  /** Every target built comes from one of the names, resolved as that name. */
  lemma {:induction false} ResolvedSound(sky: Sky, names: seq<string>)
    ensures forall t :: t in Resolved(sky, names) ==> exists i :: 0 <= i < |names| && ResolvesTo(sky, names[i], t)
    ensures |Resolved(sky, names)| <= |names|
  {
    if |names| > 0 {
      var init := names[..|names| - 1];
      ResolvedSound(sky, init);
      forall t | t in Resolved(sky, names)
        ensures exists i :: 0 <= i < |names| && ResolvesTo(sky, names[i], t)
      {
        if t in Resolved(sky, init) {
          var i :| 0 <= i < |init| && ResolvesTo(sky, init[i], t);
          assert names[i] == init[i];
        } else {
          assert ResolvesTo(sky, names[|names| - 1], t);
        }
      }
    }
  }

  /** Every name that resolves contributes its target. */
  lemma {:induction false} ResolvedComplete(sky: Sky, names: seq<string>)
    ensures forall i :: 0 <= i < |names| && sky.fromName(LookupKey(names[i])).Some? ==>
      Target(LookupKey(names[i]), Some(names[i]), sky.fromName(LookupKey(names[i])).value) in Resolved(sky, names)
  {
    if |names| > 0 {
      var init := names[..|names| - 1];
      ResolvedComplete(sky, init);
      forall i | 0 <= i < |names| - 1
        ensures names[i] == init[i]
      {
      }
    }
  }

  /** Nothing is dropped exactly when every name resolves. */
  lemma {:induction false} ResolvedAll(sky: Sky, names: seq<string>)
    ensures |Resolved(sky, names)| == |names| <==>
      forall i :: 0 <= i < |names| ==> sky.fromName(LookupKey(names[i])).Some?
  {
    ResolvedSound(sky, names);
    if |names| > 0 {
      var init := names[..|names| - 1];
      ResolvedAll(sky, init);
      ResolvedSound(sky, init);
      if forall i :: 0 <= i < |names| ==> sky.fromName(LookupKey(names[i])).Some? {
        assert forall i :: 0 <= i < |init| ==> init[i] == names[i];
      } else if forall i :: 0 <= i < |init| ==> sky.fromName(LookupKey(init[i])).Some? {
        assert sky.fromName(LookupKey(names[|names| - 1])).None? by {
          assert forall i :: 0 <= i < |init| ==> init[i] == names[i];
        }
      }
    }
  }

  // ---------------------------------------------------------------------
  // The observing window and the time grid
  // ---------------------------------------------------------------------

  /**
   * Astronomical dusk after `now` to the following dawn; if either solver
   * raises, the twelve hours from `now`.
   */
  function TwilightWindow(sky: Sky, now: int): (w: (int, int))
    ensures sky.eveningTwilight(now).None? ==> w == (now, now + HalfDay)
    ensures sky.eveningTwilight(now).Some? ==>
      var dusk := sky.eveningTwilight(now).value;
      w == if sky.morningTwilight(dusk).Some? then (dusk, sky.morningTwilight(dusk).value) else (now, now + HalfDay)
  {
    match sky.eveningTwilight(now)
    case None => (now, now + HalfDay)
    case Some(dusk) =>
      match sky.morningTwilight(dusk)
      case None => (now, now + HalfDay)
      case Some(dawn) => (dusk, dawn)
  }

  function GridLength(start: int, end: int): nat {
    if end <= start then 0 else (end - start + Step - 1) / Step
  }

  /**
   * `time_grid_from_range` at five-minute resolution: the instants
   * start, start + 5, ... strictly before end.
   */
  function TimeGrid(start: int, end: int): (grid: seq<int>)
    ensures UniformGrid(grid, Step)
    ensures forall k :: 0 <= k < |grid| ==> start <= grid[k] < end
    ensures |grid| > 0 ==> grid[0] == start
    ensures start + Step * |grid| >= end
  {
    seq(GridLength(start, end), k requires 0 <= k => start + Step * k)
  }

  /** A window longer than one step gives at least two samples. */
  lemma {:induction false} LongWindowGrid(start: int, end: int)
    requires end - start > Step
    ensures |TimeGrid(start, end)| >= 2
  {
  }

  /** The twelve-hour fallback window holds 144 samples. */
  lemma FallbackGrid(now: int)
    ensures |TimeGrid(now, now + HalfDay)| == 144
  {
  }

  // ---------------------------------------------------------------------
  // One target
  // ---------------------------------------------------------------------

  /** A reported instant, or the note the source writes instead. */
  datatype TimeField = Iso(instant: int) | Note(text: string)

  datatype AngularSize = AngularSize(maj: Option<real>, min: Option<real>, unit: Option<string>)

  datatype Visibility = Visibility(
    isObservable: bool,
    durationHours: real,
    start: Option<int>,
    end: Option<int>,
    maxAltitude: Option<real>)

  /** Why a target became an error entry. */
  datatype Fault = TransformFailed | NightTestFailed | GridIndex

  datatype TargetEntry =
    | Computed(
        name: string,
        altitudeNow: real,
        azimuthNow: real,
        isUpNow: bool,
        rise: TimeField,
        transit: TimeField,
        transitAltitude: Option<real>,
        setting: TimeField,
        size: AngularSize,
        vis: Visibility)
    | Failed(name: string, fault: Fault)
  {
    /** Error entries carry `is_observable: False`. */
    predicate IsObservable() {
      Computed? && vis.isObservable
    }
  }

  /** The rise time, or the circumpolar note when the solver raises. */
  function RiseField(sky: Sky, c: Coord, now: int): (r: TimeField)
    ensures r == Note(NeverRises) <==> sky.riseTime(c, now).None?
    ensures sky.riseTime(c, now).Some? ==> r == Iso(sky.riseTime(c, now).value)
  {
    match sky.riseTime(c, now)
    case None => Note(NeverRises)
    case Some(t) => Iso(t)
  }

  /** The set time, or the circumpolar note when the solver raises. */
  function SetField(sky: Sky, c: Coord, now: int): (r: TimeField)
    ensures r == Note(NeverSets) <==> sky.setTime(c, now).None?
    ensures sky.setTime(c, now).Some? ==> r == Iso(sky.setTime(c, now).value)
  {
    match sky.setTime(c, now)
    case None => Note(NeverSets)
    case Some(t) => Iso(t)
  }

  /**
   * The meridian transit and the altitude there; if either the transit
   * solver or the transform at the transit instant raises, "N/A" and no altitude.
   */
  function TransitFields(sky: Sky, c: Coord, now: int): (r: (TimeField, Option<real>))
    ensures r.1.None? <==> r.0 == Note(NoTransit)
    ensures r.1.Some? <==> sky.transitTime(c, now).Some? && sky.altAz(c, sky.transitTime(c, now).value).Some?
  {
    match sky.transitTime(c, now)
    case None => (Note(NoTransit), None)
    case Some(t) =>
      match sky.altAz(c, t)
      case None => (Note(NoTransit), None)
      case Some(aa) => (Iso(t), Some(sky.round(aa.alt, 2)))
  }

  /**
   * The angular size: not asked for planets, kept only when the catalogue's
   * major axis is finite and positive, the minor axis falling back to the
   * major one when it is not finite.
   */
  function SizeOf(sky: Sky, name: string): (size: AngularSize)
    ensures size.maj.Some? <==> size.min.Some?
    ensures size.unit.Some? <==> size.maj.Some?
    ensures size.unit.Some? ==> size.unit.value == Arcmin
    ensures size.maj.Some? <==>
      && Lower(name) !in PlanetMapping
      && sky.simbad(name).Row?
      && sky.simbad(name).maj.Finite?
      && sky.simbad(name).maj.v > 0.0
    ensures size.maj.Some? ==>
      var maj := sky.simbad(name).maj.v;
      && size.maj.value == sky.round(maj, 2)
      && size.min.value == sky.round(if sky.simbad(name).min.Finite? then sky.simbad(name).min.v else maj, 2)
  {
    var none := AngularSize(None, None, None);
    if Lower(name) in PlanetMapping then none
    else
      match sky.simbad(name)
      case Row(Finite(maj), min) =>
        if maj > 0.0 then
          var minor := if min.Finite? then min.v else maj;
          AngularSize(Some(sky.round(maj, 2)), Some(sky.round(minor, 2)), Some(Arcmin))
        else none
      case _ => none
  }

  /** The altitudes over the grid; a transform that raises at any instant makes the whole call raise. */
  function GridAltitudes(sky: Sky, c: Coord, grid: seq<int>): (alts: Option<seq<real>>)
    ensures alts.Some? <==> forall k :: 0 <= k < |grid| ==> sky.altAz(c, grid[k]).Some?
    ensures alts.Some? ==> |alts.value| == |grid|
    ensures alts.Some? ==> forall k :: 0 <= k < |grid| ==> alts.value[k] == sky.altAz(c, grid[k]).value.alt
  {
    if |grid| == 0 then Some([])
    else
      match sky.altAz(c, grid[0])
      case None => None
      case Some(aa) =>
        match GridAltitudes(sky, c, grid[1..])
        case None => None
        case Some(rest) => Some([aa.alt] + rest)
  }

  /** `observer.is_night` over the grid; it raises if the night test fails at any instant. */
  function NightFlags(sky: Sky, grid: seq<int>): (night: Option<seq<bool>>)
    ensures night.Some? <==> forall k :: 0 <= k < |grid| ==> sky.isNight(grid[k]).Some?
    ensures night.Some? ==> |night.value| == |grid|
    ensures night.Some? ==> forall k :: 0 <= k < |grid| ==> night.value[k] == sky.isNight(grid[k]).value
  {
    if |grid| == 0 then Some([])
    else
      match sky.isNight(grid[0])
      case None => None
      case Some(b) =>
        match NightFlags(sky, grid[1..])
        case None => None
        case Some(rest) => Some([b] + rest)
  }

  /** The visibility fields for an extracted window; the duration is reported in hours. */
  function VisibilityOf(sky: Sky, w: Window): (v: Visibility)
    ensures v.isObservable <==> w.Observable?
    ensures w.NotObservable? ==> v == Visibility(false, 0.0, None, None, None)
    ensures w.Observable? ==>
      && v.start == Some(w.start) && v.end == Some(w.end)
      && v.durationHours == sky.round(w.duration as real / 60.0, 2)
      && v.maxAltitude == Some(sky.round(w.peak, 2))
  {
    match w
    case NotObservable => Visibility(false, 0.0, None, None, None)
    case Observable(start, end, duration, peak) =>
      Visibility(true, sky.round(duration as real / 60.0, 2), Some(start), Some(end), Some(sky.round(peak, 2)))
  }

  /**
   * The body of the per-target loop: the current position, rise, transit
   * and set, the angular size and the observable window, or an error entry
   * when a transform raises or the grid has a single sample.
   */
  function ProcessTarget(sky: Sky, now: int, grid: seq<int>, t: Target): (entry: TargetEntry)
    ensures entry.name == DisplayName(t)
  {
    var name := DisplayName(t);
    match sky.altAz(t.coord, now)
    case None => Failed(name, TransformFailed)
    case Some(here) =>
      match GridAltitudes(sky, t.coord, grid)
      case None => Failed(name, TransformFailed)
      case Some(alts) =>
        match NightFlags(sky, grid)
        case None => Failed(name, NightTestFailed)
        case Some(night) =>
        match Extract(grid, alts, night)
        case Err(_) => Failed(name, GridIndex)
        case Ok(w) =>
          var transit := TransitFields(sky, t.coord, now);
          Computed(
            name,
            sky.round(here.alt, 2),
            sky.round(here.az, 2),
            here.alt > 0.0,
            RiseField(sky, t.coord, now),
            transit.0,
            transit.1,
            SetField(sky, t.coord, now),
            SizeOf(sky, name),
            VisibilityOf(sky, w))
  }

  /** A grid sample at which the target is high enough at night. */
  predicate Qualifies(sky: Sky, c: Coord, g: int) {
    sky.altAz(c, g).Some? && sky.altAz(c, g).value.alt >= MinAltitude && sky.isNight(g) == Some(true)
  }

  /**
   * Which entry a target gets: error entries exactly when a transform
   * raises, the night test raises, or a one-sample grid meets a qualifying
   * sample.
   */
  lemma {:induction false} EntryKind(sky: Sky, now: int, grid: seq<int>, t: Target)
    ensures var e := ProcessTarget(sky, now, grid, t);
      && (e == Failed(DisplayName(t), TransformFailed) <==>
           sky.altAz(t.coord, now).None? || exists k :: 0 <= k < |grid| && sky.altAz(t.coord, grid[k]).None?)
      && (e == Failed(DisplayName(t), NightTestFailed) <==>
           && sky.altAz(t.coord, now).Some?
           && (forall k :: 0 <= k < |grid| ==> sky.altAz(t.coord, grid[k]).Some?)
           && (exists k :: 0 <= k < |grid| && sky.isNight(grid[k]).None?))
      && (e == Failed(DisplayName(t), GridIndex) <==>
           && sky.altAz(t.coord, now).Some?
           && (forall k :: 0 <= k < |grid| ==> sky.altAz(t.coord, grid[k]).Some?)
           && (forall k :: 0 <= k < |grid| ==> sky.isNight(grid[k]).Some?)
           && (exists k :: 0 <= k < |grid| && Qualifies(sky, t.coord, grid[k]))
           && |grid| < 2)
  {
    var c := t.coord;
    if sky.altAz(c, now).Some? {
      var alts := GridAltitudes(sky, c, grid);
      var night := NightFlags(sky, grid);
      if alts.Some? && night.Some? {
        assert forall k :: 0 <= k < |grid| ==>
          (Qualifies(sky, c, grid[k]) <==> alts.value[k] >= MinAltitude && night.value[k]);
      }
    }
  }

  /**
   * The sentinels of the rise, transit and set fields: each note appears
   * exactly when its solver (or the transform at transit) raises.
   */
  lemma {:induction false} EntrySentinels(sky: Sky, now: int, grid: seq<int>, t: Target)
    requires ProcessTarget(sky, now, grid, t).Computed?
    ensures var e := ProcessTarget(sky, now, grid, t);
      && (e.rise == Note(NeverRises) <==> sky.riseTime(t.coord, now).None?)
      && (e.setting == Note(NeverSets) <==> sky.setTime(t.coord, now).None?)
      && (e.transit == Note(NoTransit) <==> e.transitAltitude.None?)
      && (e.transitAltitude.None? <==>
            sky.transitTime(t.coord, now).None? || sky.altAz(t.coord, sky.transitTime(t.coord, now).value).None?)
      && e.isUpNow == (sky.altAz(t.coord, now).value.alt > 0.0)
  {
  }

  /**
   * The observable window of a computed entry: observable exactly when some
   * sample qualifies; otherwise zero hours and no start, end or peak; when
   * observable, start does not follow end and the duration is the longest
   * run's length times the step, in hours.
   */
  lemma {:induction false} EntryVisibility(sky: Sky, now: int, start: int, end: int, t: Target)
    requires ProcessTarget(sky, now, TimeGrid(start, end), t).Computed?
    ensures var grid := TimeGrid(start, end);
      var v := ProcessTarget(sky, now, grid, t).vis;
      && (v.isObservable <==> exists k :: 0 <= k < |grid| && Qualifies(sky, t.coord, grid[k]))
      && (!v.isObservable ==> v == Visibility(false, 0.0, None, None, None))
      && (v.isObservable ==>
            && v.start.Some? && v.end.Some? && v.maxAltitude.Some?
            && start <= v.start.value <= v.end.value < end)
  {
    var grid := TimeGrid(start, end);
    var c := t.coord;
    var alts := GridAltitudes(sky, c, grid).value;
    var night := NightFlags(sky, grid).value;
    assert forall k :: 0 <= k < |grid| ==>
      (Qualifies(sky, c, grid[k]) <==> alts[k] >= MinAltitude && night[k]);
    var r := Extract(grid, alts, night);
    if r.value.Observable? {
      ObservableDuration(grid, alts, night, Step);
      var run := LongestRun(Mask(alts, night));
      assert run.1 < |grid|;
    }
  }

  /** A computed entry's window is the extractor's result on the sampled altitudes and night flags. */
  lemma {:induction false} ComputedWindow(sky: Sky, now: int, grid: seq<int>, t: Target)
    requires ProcessTarget(sky, now, grid, t).Computed?
    ensures GridAltitudes(sky, t.coord, grid).Some?
    ensures NightFlags(sky, grid).Some?
    ensures Extract(grid, GridAltitudes(sky, t.coord, grid).value, NightFlags(sky, grid).value).Ok?
    ensures ProcessTarget(sky, now, grid, t).vis ==
      VisibilityOf(sky, Extract(grid, GridAltitudes(sky, t.coord, grid).value, NightFlags(sky, grid).value).value)
  {
  }

  /**
   * Reported start and end are present, start does not follow end, they are
   * a whole number of steps apart, and the hours are that span plus one
   * step, over sixty.
   */
  predicate WholeStepHours(sky: Sky, v: Visibility) {
    && v.start.Some? && v.end.Some?
    && v.start.value <= v.end.value
    && (v.end.value - v.start.value) % Step == 0
    && v.durationHours == sky.round(((v.end.value - v.start.value) + Step) as real / 60.0, 2)
  }

  /** The visibility of an observable window spanning n steps. */
  lemma {:induction false} WindowHours(sky: Sky, w: Window, n: nat)
    requires w.Observable? && w.end - w.start == n * Step && w.duration == (w.end - w.start) + Step
    ensures WholeStepHours(sky, VisibilityOf(sky, w))
  {
  }

  /** The reported hours of an observable entry on a uniform five-minute grid. */
  lemma {:induction false} EntryHours(sky: Sky, now: int, grid: seq<int>, t: Target)
    requires UniformGrid(grid, Step)
    requires ProcessTarget(sky, now, grid, t).IsObservable()
    ensures WholeStepHours(sky, ProcessTarget(sky, now, grid, t).vis)
  {
    ComputedWindow(sky, now, grid, t);
    var alts := GridAltitudes(sky, t.coord, grid).value;
    var night := NightFlags(sky, grid).value;
    var w := Extract(grid, alts, night).value;
    ObservableDuration(grid, alts, night, Step);
    var run := LongestRun(Mask(alts, night));
    WindowHours(sky, w, run.1 - run.0);
  }

  /**
   * The reported peak: the rounded highest altitude over every qualifying
   * sample, which is at least 30 degrees and reached at one of them.
   */
  lemma {:induction false} EntryPeak(sky: Sky, now: int, grid: seq<int>, t: Target)
    requires ProcessTarget(sky, now, grid, t).IsObservable()
    ensures exists p: real ::
      && ProcessTarget(sky, now, grid, t).vis.maxAltitude == Some(sky.round(p, 2))
      && p >= MinAltitude
      && (forall k :: 0 <= k < |grid| && Qualifies(sky, t.coord, grid[k]) ==> sky.altAz(t.coord, grid[k]).value.alt <= p)
      && (exists k :: 0 <= k < |grid| && Qualifies(sky, t.coord, grid[k]) && sky.altAz(t.coord, grid[k]).value.alt == p)
  {
    var c := t.coord;
    var alts := GridAltitudes(sky, c, grid).value;
    var night := NightFlags(sky, grid).value;
    assert forall k :: 0 <= k < |grid| ==>
      (Qualifies(sky, c, grid[k]) <==> alts[k] >= MinAltitude && night[k]);
    var p := Extract(grid, alts, night).value.peak;
    assert ProcessTarget(sky, now, grid, t).vis.maxAltitude == Some(sky.round(p, 2));
  }

  /** Planets are never given an angular size. */
  lemma PlanetsHaveNoSize(sky: Sky, now: int, grid: seq<int>, t: Target)
    requires ProcessTarget(sky, now, grid, t).Computed?
    requires Lower(DisplayName(t)) in PlanetMapping
    ensures ProcessTarget(sky, now, grid, t).size == AngularSize(None, None, None)
  {
  }

  // ---------------------------------------------------------------------
  // calculate_ephemeris
  // ---------------------------------------------------------------------

  /** The run-wide facts: when, the window, and the Sun and Moon altitudes now. */
  datatype BaseInfo = BaseInfo(
    calculationTime: int,
    windowStart: int,
    windowEnd: int,
    sunAltitude: Option<real>,
    moonAltitude: Option<real>)

  datatype EphemerisReport = EphemerisReport(base: BaseInfo, targets: seq<TargetEntry>)

  /** The base information; if the Sun/Moon computation raises, both altitudes are missing. */
  function BaseInfoOf(sky: Sky, now: int): (b: BaseInfo)
    ensures b.sunAltitude.Some? <==> b.moonAltitude.Some?
    ensures b.sunAltitude.Some? <==> sky.sunMoonAltitudes(now).Some?
    ensures (b.windowStart, b.windowEnd) == TwilightWindow(sky, now)
  {
    var w := TwilightWindow(sky, now);
    match sky.sunMoonAltitudes(now)
    case None => BaseInfo(now, w.0, w.1, None, None)
    case Some(sm) => BaseInfo(now, w.0, w.1, Some(sm.0), Some(sm.1))
  }

  /**
   * `calculate_ephemeris`: one entry per target, in the order given, each
   * computed on the grid over the twilight window (or its fallback).
   */
  method CalculateEphemeris(sky: Sky, now: int, targets: seq<Target>) returns (report: EphemerisReport)
    ensures report.base == BaseInfoOf(sky, now)
    ensures |report.targets| == |targets|
    ensures forall i :: 0 <= i < |targets| ==>
      report.targets[i] == ProcessTarget(sky, now, TimeGrid(report.base.windowStart, report.base.windowEnd), targets[i])
    ensures forall i :: 0 <= i < |targets| ==> report.targets[i].name == DisplayName(targets[i])
  {
    var window := TwilightWindow(sky, now);
    var grid := TimeGrid(window.0, window.1);
    var base := BaseInfoOf(sky, now);
    var entries: seq<TargetEntry> := [];
    for i := 0 to |targets|
      invariant |entries| == i
      invariant forall j :: 0 <= j < i ==> entries[j] == ProcessTarget(sky, now, grid, targets[j])
    {
      var entry := ProcessTarget(sky, now, grid, targets[i]);
      entries := entries + [entry];
    }
    report := EphemerisReport(base, entries);
  }
}
