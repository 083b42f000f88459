/**
 * The decisions astro_agent.py takes around its I/O: whether the configured
 * location is usable, how cloud cover maps to a seeing class, what the
 * weather lookup reports without an API key, and which targets are kept and
 * in what order.
 */
module AstroAgent {
  import opened Wrappers
  import opened Ephemeris

  // ---------------------------------------------------------------------
  // Location
  // ---------------------------------------------------------------------

  /** An environment variable read as a number with `float()`. */
  datatype EnvNumber =
    | Unset          // the variable is not defined
    | Malformed      // `float()` raises
    | NotFinite      // "nan" or "inf": parses, then fails every range test
    | Finite(v: real)

  datatype Location = Location(lat: real, lon: real)

  /** Why the run stops at start-up. */
  datatype LocationError = NotSet | NotANumber | OutOfRange

  /**
   * The start-up check: both variables set, both numbers, latitude in
   * [-90, 90] and longitude in [-180, 180]; otherwise the run exits.
   */
  function ValidateLocation(lat: EnvNumber, lon: EnvNumber): (r: Result<Location, LocationError>)
    ensures r.Ok? <==>
      lat.Finite? && lon.Finite? && -90.0 <= lat.v <= 90.0 && -180.0 <= lon.v <= 180.0
    ensures r.Ok? ==> r.value == Location(lat.v, lon.v)
    ensures r == Err(NotSet) <==> lat.Unset? || lon.Unset?
    ensures r == Err(NotANumber) <==>
      !lat.Unset? && !lon.Unset? && (lat.Malformed? || lon.Malformed?)
  {
    if lat.Unset? || lon.Unset? then Err(NotSet)
    else if lat.Malformed? || lon.Malformed? then Err(NotANumber)
    else if lat.Finite? && lon.Finite? && -90.0 <= lat.v <= 90.0 && -180.0 <= lon.v <= 180.0 then
      Ok(Location(lat.v, lon.v))
    else Err(OutOfRange)
  }

  // ---------------------------------------------------------------------
  // Weather
  // ---------------------------------------------------------------------

  datatype Seeing = Unknown | Good | Average | Poor

  /** -1 stands for "no cloud cover known", in the reply and in the records. */
  const NoCloudCover: int := -1

  /**
   * The seeing class inferred from the cloud-cover percentage: the classes
   * split the known cloud covers at 20 and 60, both bounds inclusive.
   */
  function SeeingOf(cloudCover: int): (s: Seeing)
    ensures s == Unknown <==> cloudCover == NoCloudCover
    ensures s == Good <==> cloudCover != NoCloudCover && cloudCover <= 20
    ensures s == Average <==> 20 < cloudCover <= 60
    ensures s == Poor <==> cloudCover > 60
  {
    if cloudCover == NoCloudCover then Unknown
    else if cloudCover <= 20 then Good
    else if cloudCover <= 60 then Average
    else Poor
  }

  function SeeingRank(s: Seeing): nat {
    match s
    case Unknown => 0
    case Good => 1
    case Average => 2
    case Poor => 3
  }

  /** More cloud never gives better seeing. */
  lemma SeeingMonotone(c1: int, c2: int)
    requires c1 != NoCloudCover && c2 != NoCloudCover && c1 <= c2
    ensures 1 <= SeeingRank(SeeingOf(c1)) <= SeeingRank(SeeingOf(c2))
  {
  }

  /** The fields of the weather reply the lookup reads, each possibly absent. */
  datatype WeatherData = WeatherData(
    description: Option<string>,
    cloudCover: Option<int>,
    temperature: Option<real>,
    humidity: Option<int>)

  /** The outcome of the HTTP request: the decoded reply, or a failure with its description and message. */
  datatype Fetch = Fetched(data: WeatherData) | FetchFailed(description: string, message: string)

  /** The weather record; request failures carry no temperature or humidity. */
  datatype Weather = Weather(
    description: string,
    cloudCover: int,
    seeing: Seeing,
    temperature: Option<real>,
    humidity: Option<int>,
    error: Option<string>)

  const KeyMissingRecord: Weather := Weather(
    "Weather data unavailable (API key missing in function call)",
    NoCloudCover, Unknown, Some(-999.0), Some(-1), Some("API key missing"))

  /** The record built from a reply, with the defaults for absent fields. */
  function WeatherFrom(data: WeatherData): (w: Weather)
    ensures w.error.None?
    ensures w.cloudCover == data.cloudCover.GetOr(NoCloudCover)
    ensures w.seeing == SeeingOf(w.cloudCover)
    ensures data.cloudCover.None? ==> w.seeing == Unknown
  {
    var cloud := data.cloudCover.GetOr(NoCloudCover);
    Weather(data.description.GetOr("N/A"), cloud, SeeingOf(cloud),
            Some(data.temperature.GetOr(-999.0)), Some(data.humidity.GetOr(-1)), None)
  }

  /**
   * `get_weather_data`: without a key (absent or empty) the key-missing
   * record, whatever the service would have said; otherwise the record
   * from the reply, or the error record of a failed request.
   */
  function GetWeather(apiKey: Option<string>, fetch: Fetch): (w: Weather)
    ensures apiKey.None? || apiKey == Some("") ==> w == KeyMissingRecord
    ensures w.error.Some? ==> w.cloudCover == NoCloudCover && w.seeing == Unknown
    ensures w.error.None? <==> apiKey.Some? && apiKey != Some("") && fetch.Fetched?
  {
    if apiKey.None? || apiKey == Some("") then KeyMissingRecord
    else
      match fetch
      case Fetched(data) => WeatherFrom(data)
      case FetchFailed(description, message) =>
        Weather(description, NoCloudCover, Unknown, None, None, Some(message))
  }

  // ---------------------------------------------------------------------
  // Keeping and ranking the observable targets
  // ---------------------------------------------------------------------

  /** The entries that are observable and carry no error, in their original order. */
  function ObservableOnly(entries: seq<TargetEntry>): (r: seq<TargetEntry>)
    ensures |r| <= |entries|
    ensures forall k :: 0 <= k < |r| ==> r[k].IsObservable()
  {
    if |entries| == 0 then []
    else
      var last := entries[|entries| - 1];
      ObservableOnly(entries[..|entries| - 1]) + (if last.IsObservable() then [last] else [])
  }

  /** An entry is kept exactly when it is observable. */
  lemma {:induction false} ObservableOnlyMembers(entries: seq<TargetEntry>)
    ensures forall e :: e in ObservableOnly(entries) <==> e in entries && e.IsObservable()
  {
    if |entries| > 0 {
      var init := entries[..|entries| - 1];
      ObservableOnlyMembers(init);
      assert entries == init + [entries[|entries| - 1]];
    }
  }

  /** Filtering a list in two parts filters each part and keeps them in order. */
  lemma {:induction false} ObservableOnlyAppend(a: seq<TargetEntry>, b: seq<TargetEntry>)
    ensures ObservableOnly(a + b) == ObservableOnly(a) + ObservableOnly(b)
    decreases |b|
  {
    if |b| == 0 {
      assert a + b == a;
    } else {
      var b' := b[..|b| - 1];
      assert (a + b)[..|a + b| - 1] == a + b';
      ObservableOnlyAppend(a, b');
    }
  }

  /**
   * `x.get('max_observable_altitude', 0)`: the peak of an observable entry;
   * 0 for entries without one, which the filter has already removed.
   */
  function Key(e: TargetEntry): (k: real)
    ensures e.IsObservable() && e.vis.maxAltitude.Some? ==> k == e.vis.maxAltitude.value
    ensures e.Failed? || e.vis.maxAltitude.None? ==> k == 0.0
  {
    if e.Computed? && e.vis.maxAltitude.Some? then e.vis.maxAltitude.value else 0.0
  }

  /** Highest peak first. */
  predicate SortedDesc(s: seq<TargetEntry>) {
    forall j, k :: 0 <= j < k < |s| ==> Key(s[j]) >= Key(s[k])
  }

  /**
   * Insert x into s from the back: x passes every element with a strictly
   * smaller key and stops behind the first whose key is at least its own.
   */
  function InsertDesc(s: seq<TargetEntry>, x: TargetEntry): (r: seq<TargetEntry>)
    ensures |r| == |s| + 1
  {
    if |s| == 0 then [x]
    else if Key(s[|s| - 1]) >= Key(x) then s + [x]
    else InsertDesc(s[..|s| - 1], x) + [s[|s| - 1]]
  }

  /** A stable sort on the key, highest first, as `list.sort(key=..., reverse=True)` performs it. */
  function SortDesc(s: seq<TargetEntry>): (r: seq<TargetEntry>)
    ensures |r| == |s|
  {
    if |s| == 0 then []
    else InsertDesc(SortDesc(s[..|s| - 1]), s[|s| - 1])
  }

  /** Insertion adds x and loses nothing. */
  lemma {:induction false} InsertDescPermutation(s: seq<TargetEntry>, x: TargetEntry)
    ensures multiset(InsertDesc(s, x)) == multiset(s) + multiset{x}
    decreases |s|
  {
    if |s| > 0 && Key(s[|s| - 1]) < Key(x) {
      assert s == s[..|s| - 1] + [s[|s| - 1]];
      InsertDescPermutation(s[..|s| - 1], x);
    }
  }

  /** The sorted sequence is a permutation of the input. */
  lemma {:induction false} SortDescPermutation(s: seq<TargetEntry>)
    ensures multiset(SortDesc(s)) == multiset(s)
    decreases |s|
  {
    if |s| > 0 {
      assert s == s[..|s| - 1] + [s[|s| - 1]];
      SortDescPermutation(s[..|s| - 1]);
      InsertDescPermutation(SortDesc(s[..|s| - 1]), s[|s| - 1]);
    }
  }

  /** Insertion adds no key below a bound that s and x both respect. */
  lemma {:induction false} InsertDescBound(s: seq<TargetEntry>, x: TargetEntry, m: real)
    requires forall k :: 0 <= k < |s| ==> Key(s[k]) >= m
    requires Key(x) >= m
    ensures forall k :: 0 <= k < |s| + 1 ==> Key(InsertDesc(s, x)[k]) >= m
    decreases |s|
  {
    if |s| > 0 && Key(s[|s| - 1]) < Key(x) {
      InsertDescBound(s[..|s| - 1], x, m);
    }
  }

  /** Inserting into a sorted sequence keeps it sorted. */
  lemma {:induction false} InsertDescSorted(s: seq<TargetEntry>, x: TargetEntry)
    requires SortedDesc(s)
    ensures SortedDesc(InsertDesc(s, x))
    decreases |s|
  {
    if |s| > 0 && Key(s[|s| - 1]) < Key(x) {
      var init := s[..|s| - 1];
      var last := s[|s| - 1];
      InsertDescSorted(init, x);
      InsertDescBound(init, x, Key(last));
      var r := InsertDesc(init, x);
      assert InsertDesc(s, x) == r + [last];
    }
  }

  /** The sorted order is non-increasing in the key. */
  lemma {:induction false} SortDescSorted(s: seq<TargetEntry>)
    ensures SortedDesc(SortDesc(s))
    decreases |s|
  {
    if |s| > 0 {
      SortDescSorted(s[..|s| - 1]);
      InsertDescSorted(SortDesc(s[..|s| - 1]), s[|s| - 1]);
    }
  }

  /** [e] when e's key is v, [] otherwise. */
  function KeyIs(e: TargetEntry, v: real): seq<TargetEntry> {
    if Key(e) == v then [e] else []
  }

  /** The entries of s whose key is v, in their order in s. */
  function WithKey(s: seq<TargetEntry>, v: real): seq<TargetEntry> {
    if |s| == 0 then []
    else WithKey(s[..|s| - 1], v) + KeyIs(s[|s| - 1], v)
  }

  lemma {:induction false} WithKeySnoc(s: seq<TargetEntry>, e: TargetEntry, v: real)
    ensures WithKey(s + [e], v) == WithKey(s, v) + KeyIs(e, v)
  {
    assert (s + [e])[..|s|] == s;
  }

  lemma SwapEmpty(a: seq<TargetEntry>, p: seq<TargetEntry>, q: seq<TargetEntry>)
    requires p == [] || q == []
    ensures a + p + q == a + q + p
  {
    if p == [] {
      assert a + p == a && a + q + p == a + q;
    } else {
      assert a + q == a && a + p + q == a + p;
    }
  }

  /** Insertion puts x behind every earlier entry with the same key. */
  lemma {:induction false} InsertDescStable(s: seq<TargetEntry>, x: TargetEntry, v: real)
    ensures WithKey(InsertDesc(s, x), v) == WithKey(s, v) + KeyIs(x, v)
    decreases |s|
  {
    if |s| == 0 {
      assert InsertDesc(s, x) == [x];
      WithKeySnoc([], x, v);
    } else if Key(s[|s| - 1]) >= Key(x) {
      WithKeySnoc(s, x, v);
    } else {
      var init := s[..|s| - 1];
      var last := s[|s| - 1];
      InsertDescStable(init, x, v);
      WithKeySnoc(InsertDesc(init, x), last, v);
      SwapEmpty(WithKey(init, v), KeyIs(x, v), KeyIs(last, v));
      calc {
        WithKey(InsertDesc(s, x), v);
        WithKey(InsertDesc(init, x), v) + KeyIs(last, v);
        WithKey(init, v) + KeyIs(x, v) + KeyIs(last, v);
        WithKey(init, v) + KeyIs(last, v) + KeyIs(x, v);
        WithKey(s, v) + KeyIs(x, v);
      }
    }
  }

  /**
   * The sort is stable: for every key, the entries with that key appear in
   * the same relative order before and after sorting.
   */
  lemma {:induction false} SortDescStable(s: seq<TargetEntry>, v: real)
    ensures WithKey(SortDesc(s), v) == WithKey(s, v)
    decreases |s|
  {
    if |s| > 0 {
      var init := s[..|s| - 1];
      SortDescStable(init, v);
      InsertDescStable(SortDesc(init), s[|s| - 1], v);
    }
  }

  /**
   * Where x goes: behind position j - 1 when that entry's key is at least
   * x's and every entry from j on has a strictly smaller key.
   */
  lemma {:induction false} InsertDescAt(s: seq<TargetEntry>, x: TargetEntry, j: nat)
    requires j <= |s|
    requires j == 0 || Key(s[j - 1]) >= Key(x)
    requires forall k :: j <= k < |s| ==> Key(s[k]) < Key(x)
    ensures InsertDesc(s, x) == s[..j] + [x] + s[j..]
    decreases |s|
  {
    if |s| == 0 {
    } else if j == |s| {
      assert s[..j] == s;
    } else {
      var init := s[..|s| - 1];
      InsertDescAt(init, x, j);
      assert init[..j] == s[..j];
      assert init[j..] + [s[|s| - 1]] == s[j..];
    }
  }

  /** A sequence that agrees with sorted before j, holds x at j and sorted shifted by one after it. */
  lemma {:induction false} ShiftedInsert(sorted: seq<TargetEntry>, x: TargetEntry, j: nat, cur: seq<TargetEntry>)
    requires j <= |sorted| && |cur| == |sorted| + 1
    requires forall k :: 0 <= k < j ==> cur[k] == sorted[k]
    requires cur[j] == x
    requires forall k :: j < k < |cur| ==> cur[k] == sorted[k - 1]
    ensures cur == sorted[..j] + [x] + sorted[j..]
  {
    var next := sorted[..j] + [x] + sorted[j..];
    forall k | 0 <= k < |cur|
      ensures cur[k] == next[k]
    {
      if k > j {
        assert next[k] == sorted[j..][k - (j + 1)];
      }
    }
  }

  /**
   * One pass of the insertion sort: the entry at i moves left past the
   * entries with a strictly smaller key; the entries from i + 1 on stay put.
   */
  method InsertAt(a: array<TargetEntry>, i: nat)
    requires i < a.Length
    modifies a
    ensures a[..i + 1] == InsertDesc(old(a[..i]), old(a[i]))
    ensures a[i + 1..] == old(a[i + 1..])
  {
    ghost var sorted := a[..i];
    ghost var rest := a[i + 1..];
    var x := a[i];
    var j := i;
    while j > 0 && Key(a[j - 1]) < Key(x)
      invariant 0 <= j <= i
      invariant forall k :: 0 <= k < j ==> a[k] == sorted[k]
      invariant forall k :: j < k <= i ==> a[k] == sorted[k - 1]
      invariant forall k :: j <= k < i ==> Key(sorted[k]) < Key(x)
      invariant a[i + 1..] == rest
    {
      a[j] := a[j - 1];
      j := j - 1;
    }
    a[j] := x;
    ShiftedInsert(sorted, x, j, a[..i + 1]);
    InsertDescAt(sorted, x, j);
  }

  /**
   * `observable_targets.sort(key=..., reverse=True)`: insertion sort in
   * place, each pass inserting the next entry into the sorted prefix.
   */
  method SortByPeak(a: array<TargetEntry>)
    modifies a
    ensures a[..] == SortDesc(old(a[..]))
  {
    ghost var orig := a[..];
    var i := 0;
    while i < a.Length
      invariant 0 <= i <= a.Length
      invariant a[..i] == SortDesc(orig[..i])
      invariant a[i..] == orig[i..]
    {
      InsertAt(a, i);
      assert orig[..i + 1][..i] == orig[..i];
      assert orig[i..][0] == orig[i];
      assert orig[i..][1..] == orig[i + 1..];
      i := i + 1;
    }
    assert a[..] == a[..a.Length];
    assert orig[..a.Length] == orig;
  }

  /**
   * Lines 499-503 of astro_agent.py: keep the observable, error-free
   * entries and rank them by peak altitude, highest first, ties in their
   * original order.
   */
  method RankObservable(entries: seq<TargetEntry>) returns (ranked: seq<TargetEntry>)
    ensures ranked == SortDesc(ObservableOnly(entries))
    ensures SortedDesc(ranked)
    ensures multiset(ranked) == multiset(ObservableOnly(entries))
    ensures forall v :: WithKey(ranked, v) == WithKey(ObservableOnly(entries), v)
  {
    var kept := ObservableOnly(entries);
    var a := new TargetEntry[|kept|](k requires 0 <= k < |kept| => kept[k]);
    assert a[..] == kept;
    SortByPeak(a);
    ranked := a[..];
    SortDescSorted(kept);
    SortDescPermutation(kept);
    forall v | true
      ensures WithKey(ranked, v) == WithKey(kept, v)
    {
      SortDescStable(kept, v);
    }
  }
}
