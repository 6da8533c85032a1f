/** `NASADataFetcher`'s payload normalisers: the NeoWS detail record, the SBDB record, the
    NeoWS feed flattened into one list of close approaches, the dispatch on the source type, and
    the rule that any failure on the fetch path becomes None. */
module Fetch {
  import opened Values

  /** Python's conversions of JSON text that the model does not spell out: `float(s)` on a
      string (None when it raises ValueError) and `str(v)` on a value that is not a string. */
  datatype Conversions = Conversions(parseFloat: string -> Option<real>, format: Json -> string)

  /** `float(v)`: numbers are kept, booleans become 1.0 and 0.0, strings are parsed, and
      anything else raises TypeError. */
  function PyFloat(v: Json, conv: Conversions): (r: Outcome<real>)
    ensures v.JNum? ==> r == Returned(v.n)
    ensures v.JBool? ==> r == Returned(if v.b then 1.0 else 0.0)
    ensures v.JStr? ==> (r.Returned? <==> conv.parseFloat(v.s).Some?)
    ensures v.JStr? && r.Returned? ==> r.value == conv.parseFloat(v.s).value
    ensures r.Returned? ==> v.JNum? || v.JBool? || v.JStr?
  {
    match v
    case JNum(n) => Returned(n)
    case JBool(b) => Returned(if b then 1.0 else 0.0)
    case JStr(s) => if conv.parseFloat(s).Some? then Returned(conv.parseFloat(s).value) else Raised
    case _ => Raised
  }

  /** `str(v)`: a string is itself; anything else is formatted. */
  function PyStr(v: Json, conv: Conversions): string {
    if v.JStr? then v.s else conv.format(v)
  }

  /** `v[0]`: the first item of a non-empty list or the first character of a non-empty string;
      an empty list or string raises IndexError and a dict has no key 0. */
  function First(v: Json): (r: Outcome<Json>)
    ensures v.JArr? ==> (r.Returned? <==> |v.items| > 0)
    ensures v.JArr? && |v.items| > 0 ==> r == Returned(v.items[0])
  {
    match v
    case JArr(items) => if |items| > 0 then Returned(items[0]) else Raised
    case JStr(s) => if |s| > 0 then Returned(JStr([s[0]])) else Raised
    case _ => Raised
  }

  /** `v[k1][k2]`. */
  function Path2(v: Json, k1: string, k2: string): Outcome<Json> {
    var w :- Subscript(v, k1);
    Subscript(w, k2)
  }

  /** `v[k1][k2][k3]`. */
  function Path3(v: Json, k1: string, k2: string, k3: string): Outcome<Json> {
    var w :- Path2(v, k1, k2);
    Subscript(w, k3)
  }

  /** `float(v[k1][k2])`. */
  function FloatAt(v: Json, k1: string, k2: string, conv: Conversions): Outcome<Json> {
    var w :- Path2(v, k1, k2);
    var x :- PyFloat(w, conv);
    Returned(JNum(x))
  }

  // ---------------------------------------------------------------------------------------
  // _process_neo_data

  /** The identity part of a NeoWS record: `str(id)`, name, maximum estimated diameter in
      kilometres and the hazard flag. */
  function NeoIdentity(response: Json, conv: Conversions): Outcome<Dict> {
    var id :- Subscript(response, "id");
    var name :- Subscript(response, "name");
    var diameter :- Path3(response, "estimated_diameter", "kilometers", "estimated_diameter_max");
    var hazardous :- Subscript(response, "is_potentially_hazardous_asteroid");
    Returned([("id", JStr(PyStr(id, conv))), ("name", name), ("diameter_km", diameter),
              ("hazardous", hazardous)])
  }

  /** The orbital part of a NeoWS record, every element passed through `float`. */
  function NeoOrbit(response: Json, conv: Conversions): Outcome<Dict> {
    var eccentricity :- FloatAt(response, "orbital_data", "eccentricity", conv);
    var inclination :- FloatAt(response, "orbital_data", "inclination", conv);
    var period :- FloatAt(response, "orbital_data", "orbital_period", conv);
    var axis :- FloatAt(response, "orbital_data", "semi_major_axis", conv);
    Returned([("orbital_eccentricity", eccentricity), ("orbital_inclination", inclination),
              ("orbital_period_yr", period), ("orbital_semi_major_axis", axis)])
  }

  /** The close-approach part of a NeoWS record, read from one close-approach entry. */
  function NeoApproach(closeApproach: Json, conv: Conversions): Outcome<Dict> {
    var date :- Subscript(closeApproach, "close_approach_date");
    var distance :- FloatAt(closeApproach, "miss_distance", "kilometers", conv);
    var velocity :- FloatAt(closeApproach, "relative_velocity", "kilometers_per_second", conv);
    Returned([("close_approach_date", date), ("miss_distance_km", distance), ("velocity_km_s", velocity)])
  }

  /** `_process_neo_data`: the detail record, its close-approach fields taken from the first
      entry of `close_approach_data`. Any missing key, empty list or failed conversion raises;
      since every exception ends in the same handler, the order of the lookups does not
      matter. */
  function ProcessNeo(response: Json, conv: Conversions): Outcome<Dict> {
    var cad :- Subscript(response, "close_approach_data");
    var closeApproach :- First(cad);
    var identity :- NeoIdentity(response, conv);
    var orbit :- NeoOrbit(response, conv);
    var approach :- NeoApproach(closeApproach, conv);
    Returned(identity + orbit + approach)
  }

  /** The keys of a NeoWS record, in order. */
  const NeoKeys: seq<string> := [
    "id", "name", "diameter_km", "hazardous", "orbital_eccentricity", "orbital_inclination",
    "orbital_period_yr", "orbital_semi_major_axis", "close_approach_date", "miss_distance_km",
    "velocity_km_s"
  ]

  lemma NeoIdentityFields(response: Json, conv: Conversions)
    requires NeoIdentity(response, conv).Returned?
    ensures var r := NeoIdentity(response, conv).value;
      && KeyOrder(r) == ["id", "name", "diameter_km", "hazardous"]
      && r[0].1 == JStr(PyStr(Subscript(response, "id").value, conv))
      && Subscript(response, "name") == Returned(r[1].1)
      && Path3(response, "estimated_diameter", "kilometers", "estimated_diameter_max") == Returned(r[2].1)
      && Subscript(response, "is_potentially_hazardous_asteroid") == Returned(r[3].1)
  {
  }

  lemma NeoOrbitFields(response: Json, conv: Conversions)
    requires NeoOrbit(response, conv).Returned?
    ensures var r := NeoOrbit(response, conv).value;
      && KeyOrder(r) == ["orbital_eccentricity", "orbital_inclination", "orbital_period_yr", "orbital_semi_major_axis"]
      && (forall i | 0 <= i < 4 :: r[i].1.JNum?)
      && FloatAt(response, "orbital_data", "eccentricity", conv) == Returned(r[0].1)
      && FloatAt(response, "orbital_data", "inclination", conv) == Returned(r[1].1)
      && FloatAt(response, "orbital_data", "orbital_period", conv) == Returned(r[2].1)
      && FloatAt(response, "orbital_data", "semi_major_axis", conv) == Returned(r[3].1)
  {
  }

  lemma NeoApproachFields(closeApproach: Json, conv: Conversions)
    requires NeoApproach(closeApproach, conv).Returned?
    ensures var r := NeoApproach(closeApproach, conv).value;
      && KeyOrder(r) == ["close_approach_date", "miss_distance_km", "velocity_km_s"]
      && Subscript(closeApproach, "close_approach_date") == Returned(r[0].1)
      && FloatAt(closeApproach, "miss_distance", "kilometers", conv) == Returned(r[1].1)
      && FloatAt(closeApproach, "relative_velocity", "kilometers_per_second", conv) == Returned(r[2].1)
  {
  }

  /** A NeoWS record has the eleven keys in order; its `id` is `str(response['id'])`, its
      `diameter_km` the maximum estimated diameter in kilometres, its orbital elements numbers,
      and its close-approach date, distance and velocity all come from the FIRST entry of
      `close_approach_data`. */
  lemma ProcessNeoFields(response: Json, conv: Conversions)
    requires ProcessNeo(response, conv).Returned?
    ensures Subscript(response, "close_approach_data").Returned?
    ensures First(Subscript(response, "close_approach_data").value).Returned?
    ensures var r := ProcessNeo(response, conv).value;
      var first := First(Subscript(response, "close_approach_data").value).value;
      && KeyOrder(r) == NeoKeys
      && r[0].1 == JStr(PyStr(Subscript(response, "id").value, conv))
      && Subscript(response, "name") == Returned(r[1].1)
      && Path3(response, "estimated_diameter", "kilometers", "estimated_diameter_max") == Returned(r[2].1)
      && Subscript(response, "is_potentially_hazardous_asteroid") == Returned(r[3].1)
      && (forall i | 4 <= i < 8 :: r[i].1.JNum?)
      && FloatAt(response, "orbital_data", "eccentricity", conv) == Returned(r[4].1)
      && FloatAt(response, "orbital_data", "inclination", conv) == Returned(r[5].1)
      && FloatAt(response, "orbital_data", "orbital_period", conv) == Returned(r[6].1)
      && FloatAt(response, "orbital_data", "semi_major_axis", conv) == Returned(r[7].1)
      && Subscript(first, "close_approach_date") == Returned(r[8].1)
      && FloatAt(first, "miss_distance", "kilometers", conv) == Returned(r[9].1)
      && FloatAt(first, "relative_velocity", "kilometers_per_second", conv) == Returned(r[10].1)
  {
    var first := First(Subscript(response, "close_approach_data").value).value;
    NeoIdentityFields(response, conv);
    NeoOrbitFields(response, conv);
    NeoApproachFields(first, conv);
    ConcatParts(NeoIdentity(response, conv).value, NeoOrbit(response, conv).value, NeoApproach(first, conv).value);
  }

  /** Indexing into a record assembled from three parts. */
  lemma ConcatParts(a: Dict, b: Dict, c: Dict)
    requires |a| == 4 && |b| == 4 && |c| == 3
    ensures KeyOrder(a + b + c) == KeyOrder(a) + KeyOrder(b) + KeyOrder(c)
    ensures forall i | 0 <= i < 4 :: (a + b + c)[i] == a[i]
    ensures forall i | 4 <= i < 8 :: (a + b + c)[i] == b[i - 4]
    ensures (a + b + c)[8] == c[0] && (a + b + c)[9] == c[1] && (a + b + c)[10] == c[2]
  {
  }

  /** An empty `close_approach_data` list makes `[0]` raise. */
  lemma ProcessNeoEmptyApproaches(response: Json, conv: Conversions)
    requires Subscript(response, "close_approach_data") == Returned(JArr([]))
    ensures ProcessNeo(response, conv).Raised?
  {
  }

  // ---------------------------------------------------------------------------------------
  // _process_sbdb_data

  /** `_process_sbdb_data`: `spkid`, `fullname` and the orbit class description, each
      defaulting to `''`, the raw response, and the source tag. Raises when the response, its
      `object` or its `orbit_class` is present but not a dict. */
  function ProcessSbdb(response: Json): Outcome<Dict> {
    var obj :- DictGet(response, "object", JObj([]));
    var spkid :- DictGet(obj, "spkid", JStr(""));
    var fullname :- DictGet(obj, "fullname", JStr(""));
    var orbitClass :- DictGet(obj, "orbit_class", JObj([]));
    var description :- DictGet(orbitClass, "description", JStr(""));
    Returned([("id", spkid), ("name", fullname), ("orbit_class", description),
              ("source_data", response), ("data_source", JStr("sbdb"))])
  }

  /** The keys of an SBDB record, in order. */
  const SbdbKeys: seq<string> := ["id", "name", "orbit_class", "source_data", "data_source"]

  /** An SBDB record is produced exactly when the response, its `object` and its `orbit_class`
      are dicts or absent; it defaults a missing `spkid`, `fullname` or orbit class description
      to `''`, keeps the raw response as `source_data` and is tagged `'sbdb'`. */
  lemma ProcessSbdbFields(response: Json)
    ensures var obj := DictGet(response, "object", JObj([]));
      ProcessSbdb(response).Returned? <==>
        (&& response.JObj? && obj.value.JObj?
         && DictGet(obj.value, "orbit_class", JObj([])).value.JObj?)
    ensures ProcessSbdb(response).Returned? ==>
      var r := ProcessSbdb(response).value;
      var obj := DictGet(response, "object", JObj([])).value;
      var oc := DictGet(obj, "orbit_class", JObj([])).value;
      && |r| == |SbdbKeys| && (forall i | 0 <= i < |r| :: r[i].0 == SbdbKeys[i])
      && r[3].1 == response && r[4].1 == JStr("sbdb")
      && ("spkid" in Keys(obj.members) ==> Subscript(obj, "spkid") == Returned(r[0].1))
      && ("spkid" !in Keys(obj.members) ==> r[0].1 == JStr(""))
      && ("fullname" in Keys(obj.members) ==> Subscript(obj, "fullname") == Returned(r[1].1))
      && ("fullname" !in Keys(obj.members) ==> r[1].1 == JStr(""))
      && ("description" in Keys(oc.members) ==> Subscript(oc, "description") == Returned(r[2].1))
      && ("description" !in Keys(oc.members) ==> r[2].1 == JStr(""))
  {
  }

  // ---------------------------------------------------------------------------------------
  // _process_feed_data

  /** Python's `for x in xs: out += f(x)` where evaluating `f(x)` may raise: the outputs of
      every element, in order, or Raised as soon as one element raises. */
  function FlatMap<T>(xs: seq<T>, f: T -> Outcome<seq<Dict>>): Outcome<seq<Dict>>
    decreases |xs|
  {
    if xs == [] then Returned([])
    else
      var init :- FlatMap(xs[..|xs| - 1], f);
      var last :- f(xs[|xs| - 1]);
      Returned(init + last)
  }

  /** One flattened approach: the parent object's `id` and `name`, then the approach's date,
      miss distance and relative velocity. */
  function ApproachEntry(neo: Json, approach: Json, conv: Conversions): Outcome<Dict> {
    var id :- Subscript(neo, "id");
    var name :- Subscript(neo, "name");
    var date :- Subscript(approach, "close_approach_date");
    var distance :- FloatAt(approach, "miss_distance", "kilometers", conv);
    var velocity :- FloatAt(approach, "relative_velocity", "kilometers_per_second", conv);
    Returned([("id", id), ("name", name), ("date", date), ("distance_km", distance),
              ("velocity_km_s", velocity)])
  }

  /** A record appended on its own. */
  function Single(o: Outcome<Dict>): Outcome<seq<Dict>> {
    var e :- o;
    Returned([e])
  }

  /** The innermost loop's body. */
  function EntryStep(neo: Json, conv: Conversions): Json -> Outcome<seq<Dict>> {
    (approach: Json) => Single(ApproachEntry(neo, approach, conv))
  }

  /** The middle loop's body: every approach of one object. */
  function NeoApproaches(neo: Json, conv: Conversions): Outcome<seq<Dict>> {
    var cad :- Subscript(neo, "close_approach_data");
    var approaches :- Iterate(cad);
    FlatMap(approaches, EntryStep(neo, conv))
  }

  function NeoStep(conv: Conversions): Json -> Outcome<seq<Dict>> {
    (neo: Json) => NeoApproaches(neo, conv)
  }

  /** The dates the outer loop visits: `response.get('near_earth_objects', {})`, iterated. */
  function Dates(response: Json): Outcome<seq<Json>> {
    var byDate :- DictGet(response, "near_earth_objects", JObj([]));
    Iterate(byDate)
  }

  /** `response['near_earth_objects'][date]`. When `near_earth_objects` is a non-empty list or
      string rather than a dict, the loop raises at some date (an item that is not an integer
      cannot index it, and an integer index yields an item the next loop cannot iterate or is
      out of range); an empty one yields `[]` before this is reached. The model raises at the
      first date. */
  function DateObjects(response: Json, date: Json): Outcome<Json> {
    var byDate :- Subscript(response, "near_earth_objects");
    if byDate.JObj? && date.JStr? then Subscript(byDate, date.s) else Raised
  }

  /** The outer loop's body: every approach of every object listed under one date. */
  function DateApproaches(response: Json, date: Json, conv: Conversions): Outcome<seq<Dict>> {
    var day :- DateObjects(response, date);
    var neos :- Iterate(day);
    FlatMap(neos, NeoStep(conv))
  }

  function DateStep(response: Json, conv: Conversions): Json -> Outcome<seq<Dict>> {
    (date: Json) => DateApproaches(response, date, conv)
  }

  /** What `_process_feed_data` returns: dates in order, then objects, then approaches. */
  function FeedSpec(response: Json, conv: Conversions): Outcome<seq<Dict>> {
    var dates :- Dates(response);
    FlatMap(dates, DateStep(response, conv))
  }

  /** The innermost loop of `_process_feed_data`: one entry per close approach of `neo`. */
  method ObjectEntries(neo: Json, conv: Conversions) returns (r: Outcome<seq<Dict>>)
    ensures r == NeoApproaches(neo, conv)
  {
    var cad := Subscript(neo, "close_approach_data");
    if cad.Raised? {
      return Raised;
    }
    var itemsOut := Iterate(cad.value);
    if itemsOut.Raised? {
      return Raised;
    }
    var items := itemsOut.value;
    var entries: seq<Dict> := [];
    var k := 0;
    while k < |items|
      invariant 0 <= k <= |items|
      invariant FlatMap(items[..k], EntryStep(neo, conv)) == Returned(entries)
    {
      FlatMapStep(items, EntryStep(neo, conv), k);
      var entry := ApproachEntry(neo, items[k], conv);
      if entry.Raised? {
        FlatMapRaises(items, EntryStep(neo, conv), k);
        return Raised;
      }
      entries := entries + [entry.value];
      k := k + 1;
    }
    assert items[..|items|] == items;
    return Returned(entries);
  }

  /** The middle loop of `_process_feed_data`: the entries of every object listed under
      `date`. */
  method DateEntries(response: Json, date: Json, conv: Conversions) returns (r: Outcome<seq<Dict>>)
    ensures r == DateApproaches(response, date, conv)
  {
    var dayOut := DateObjects(response, date);
    if dayOut.Raised? {
      return Raised;
    }
    var neosOut := Iterate(dayOut.value);
    if neosOut.Raised? {
      return Raised;
    }
    var neos := neosOut.value;
    var entries: seq<Dict> := [];
    var j := 0;
    while j < |neos|
      invariant 0 <= j <= |neos|
      invariant FlatMap(neos[..j], NeoStep(conv)) == Returned(entries)
    {
      FlatMapStep(neos, NeoStep(conv), j);
      var part := ObjectEntries(neos[j], conv);
      if part.Raised? {
        FlatMapRaises(neos, NeoStep(conv), j);
        return Raised;
      }
      entries := entries + part.value;
      j := j + 1;
    }
    assert neos[..|neos|] == neos;
    return Returned(entries);
  }

  /** `_process_feed_data`: the outer loop over the feed's dates, appending one entry per close
      approach; any exception inside the loops escapes to the caller. */
  method ProcessFeedData(response: Json, conv: Conversions) returns (r: Outcome<seq<Dict>>)
    ensures r == FeedSpec(response, conv)
  {
    var datesOut := Dates(response);
    if datesOut.Raised? {
      return Raised;
    }
    var dates := datesOut.value;
    var approaches: seq<Dict> := [];
    var i := 0;
    while i < |dates|
      invariant 0 <= i <= |dates|
      invariant FlatMap(dates[..i], DateStep(response, conv)) == Returned(approaches)
    {
      FlatMapStep(dates, DateStep(response, conv), i);
      var part := DateEntries(response, dates[i], conv);
      if part.Raised? {
        FlatMapRaises(dates, DateStep(response, conv), i);
        return Raised;
      }
      approaches := approaches + part.value;
      i := i + 1;
    }
    assert dates[..|dates|] == dates;
    return Returned(approaches);
  }

  // ---------------------------------------------------------------------------------------
  // Lemmas about the flattening

  /** One more element: its output is appended, or its raise propagates. */
  lemma FlatMapStep<T>(xs: seq<T>, f: T -> Outcome<seq<Dict>>, i: nat)
    requires i < |xs|
    ensures FlatMap(xs[..i + 1], f) ==
      (var init :- FlatMap(xs[..i], f); var last :- f(xs[i]); Returned(init + last))
  {
    assert xs[..i + 1][..i] == xs[..i];
  }

  /** A raise on a prefix reaches the whole list. */
  lemma {:induction false} FlatMapRaisedPrefix<T>(xs: seq<T>, f: T -> Outcome<seq<Dict>>, i: nat)
    requires i <= |xs| && FlatMap(xs[..i], f).Raised?
    ensures FlatMap(xs, f).Raised?
    decreases |xs| - i
  {
    if i < |xs| {
      FlatMapStep(xs, f, i);
      FlatMapRaisedPrefix(xs, f, i + 1);
    } else {
      assert xs[..i] == xs;
    }
  }

  /** An element that raises makes the whole loop raise. */
  lemma FlatMapRaises<T>(xs: seq<T>, f: T -> Outcome<seq<Dict>>, i: nat)
    requires i < |xs| && f(xs[i]).Raised?
    ensures FlatMap(xs, f).Raised?
  {
    FlatMapStep(xs, f, i);
    FlatMapRaisedPrefix(xs, f, i + 1);
  }

  /** Order: the outputs for `xs + ys` are those for `xs` followed by those for `ys`. */
  lemma {:induction false} FlatMapAppend<T>(xs: seq<T>, ys: seq<T>, f: T -> Outcome<seq<Dict>>)
    ensures FlatMap(xs + ys, f) ==
      (var a :- FlatMap(xs, f); var b :- FlatMap(ys, f); Returned(a + b))
    decreases |ys|
  {
    if ys == [] {
      assert xs + ys == xs;
      if FlatMap(xs, f).Returned? {
        assert FlatMap(xs, f).value + [] == FlatMap(xs, f).value;
      }
    } else {
      var n := |ys| - 1;
      assert (xs + ys)[..|xs + ys| - 1] == xs + ys[..n];
      FlatMapAppend(xs, ys[..n], f);
      if FlatMap(xs, f).Returned? && FlatMap(ys[..n], f).Returned? && f(ys[n]).Returned? {
        var a, b, c := FlatMap(xs, f).value, FlatMap(ys[..n], f).value, f(ys[n]).value;
        assert a + b + c == a + (b + c);
      }
    }
  }

  /** The sum of `g` over a list. */
  function SumOf<T>(xs: seq<T>, g: T -> nat): nat
    decreases |xs|
  {
    if xs == [] then 0 else SumOf(xs[..|xs| - 1], g) + g(xs[|xs| - 1])
  }

  /** When each element contributes `g(x)` entries, the loop yields their sum. */
  lemma {:induction false} FlatMapLength<T>(xs: seq<T>, f: T -> Outcome<seq<Dict>>, g: T -> nat)
    requires forall x | x in xs && f(x).Returned? :: |f(x).value| == g(x)
    ensures FlatMap(xs, f).Returned? ==> |FlatMap(xs, f).value| == SumOf(xs, g)
    decreases |xs|
  {
    if xs != [] {
      var n := |xs| - 1;
      assert forall x | x in xs[..n] :: x in xs;
      FlatMapLength(xs[..n], f, g);
    }
  }

  /** A flattened entry has the keys id, name, date, distance_km and velocity_km_s, in that
      order, and carries its parent object's `id` and `name`. */
  lemma ApproachEntryFields(neo: Json, approach: Json, conv: Conversions)
    requires ApproachEntry(neo, approach, conv).Returned?
    ensures var e := ApproachEntry(neo, approach, conv).value;
      && |e| == 5
      && e[0] == ("id", Subscript(neo, "id").value)
      && e[1] == ("name", Subscript(neo, "name").value)
      && e[2] == ("date", Subscript(approach, "close_approach_date").value)
      && e[3].0 == "distance_km" && e[4].0 == "velocity_km_s"
      && FloatAt(approach, "miss_distance", "kilometers", conv) == Returned(e[3].1)
      && FloatAt(approach, "relative_velocity", "kilometers_per_second", conv) == Returned(e[4].1)
  {
  }

  /** A loop that appends one record per element appends exactly one per element, in order. */
  lemma {:induction false} FlatMapSingles<T>(xs: seq<T>, f: T -> Outcome<seq<Dict>>, g: T -> Outcome<Dict>)
    requires forall x :: f(x) == Single(g(x))
    requires FlatMap(xs, f).Returned?
    ensures |FlatMap(xs, f).value| == |xs|
    ensures forall k | 0 <= k < |xs| :: g(xs[k]) == Returned(FlatMap(xs, f).value[k])
    decreases |xs|
  {
    if xs != [] {
      var n := |xs| - 1;
      FlatMapSingles(xs[..n], f, g);
      assert f(xs[n]) == Single(g(xs[n]));
    }
  }

  /** The entries for one object: exactly one per element of its `close_approach_data`, in
      order. */
  lemma EntriesOfObject(neo: Json, approaches: seq<Json>, conv: Conversions)
    requires FlatMap(approaches, EntryStep(neo, conv)).Returned?
    ensures var r := FlatMap(approaches, EntryStep(neo, conv)).value;
      && |r| == |approaches|
      && forall k | 0 <= k < |r| :: ApproachEntry(neo, approaches[k], conv) == Returned(r[k])
  {
    FlatMapSingles(approaches, EntryStep(neo, conv), (a: Json) => ApproachEntry(neo, a, conv));
  }

  /** The number of close approaches listed for one object (none when its list cannot be read). */
  function ObjectApproachCount(neo: Json): nat {
    match Subscript(neo, "close_approach_data")
    case Returned(cad) => if Iterate(cad).Returned? then |Iterate(cad).value| else 0
    case Raised => 0
  }

  /** The number of close approaches listed under one date. */
  function DateApproachCount(response: Json, date: Json): nat {
    match DateObjects(response, date)
    case Returned(day) => if Iterate(day).Returned? then SumOf(Iterate(day).value, ObjectApproachCount) else 0
    case Raised => 0
  }

  lemma ObjectCount(neo: Json, conv: Conversions)
    requires NeoApproaches(neo, conv).Returned?
    ensures |NeoApproaches(neo, conv).value| == ObjectApproachCount(neo)
  {
    var approaches := Iterate(Subscript(neo, "close_approach_data").value).value;
    EntriesOfObject(neo, approaches, conv);
  }

  lemma DateCount(response: Json, date: Json, conv: Conversions)
    requires DateApproaches(response, date, conv).Returned?
    ensures |DateApproaches(response, date, conv).value| == DateApproachCount(response, date)
  {
    var neos := Iterate(DateObjects(response, date).value).value;
    forall neo | neo in neos && NeoStep(conv)(neo).Returned?
      ensures |NeoStep(conv)(neo).value| == ObjectApproachCount(neo)
    {
      ObjectCount(neo, conv);
    }
    FlatMapLength(neos, NeoStep(conv), ObjectApproachCount);
  }

  /** Flattening yields exactly one entry per close-approach element, summed over every date
      and every object. */
  lemma FeedCount(response: Json, conv: Conversions)
    requires FeedSpec(response, conv).Returned?
    ensures |FeedSpec(response, conv).value| ==
      SumOf(Dates(response).value, (date: Json) => DateApproachCount(response, date))
  {
    var dates := Dates(response).value;
    forall date | date in dates && DateStep(response, conv)(date).Returned?
      ensures |DateStep(response, conv)(date).value| == DateApproachCount(response, date)
    {
      DateCount(response, date, conv);
    }
    FlatMapLength(dates, DateStep(response, conv), (date: Json) => DateApproachCount(response, date));
  }

  /** A feed dict without `near_earth_objects` yields the empty list; a feed that is not a dict
      raises. */
  lemma FeedWithoutObjects(response: Json, conv: Conversions)
    ensures response.JObj? && "near_earth_objects" !in Keys(response.members) ==>
      FeedSpec(response, conv) == Returned([])
    ensures !response.JObj? ==> FeedSpec(response, conv).Raised?
  {
  }

  // ---------------------------------------------------------------------------------------
  // _process_data and _fetch_and_process

  /** What a normaliser returns: one record, or the feed's list of approaches. */
  datatype Processed = Record(record: Dict) | Records(records: seq<Dict>)

  /** `_process_data`: dispatch on the source type; an unknown type gives None. */
  function ProcessData(data: Json, sourceType: string, conv: Conversions): Outcome<Option<Processed>> {
    if sourceType == "neo" then
      var r :- ProcessNeo(data, conv); Returned(Some(Record(r)))
    else if sourceType == "sbdb" then
      var r :- ProcessSbdb(data); Returned(Some(Record(r)))
    else if sourceType == "feed" then
      var r :- FeedSpec(data, conv); Returned(Some(Records(r)))
    else Returned(None)
  }

  /** `_fetch_and_process`: `response` stands for the GET, the status check and the JSON
      decoding, which may raise; every exception is caught and becomes None. */
  function FetchAndProcess(response: Outcome<Json>, sourceType: string, conv: Conversions): Option<Processed> {
    match response
    case Raised => None
    case Returned(data) =>
      match ProcessData(data, sourceType, conv)
      case Raised => None
      case Returned(p) => p
  }

  /** Any source type other than 'neo', 'sbdb' and 'feed' gives None, whatever the payload. */
  lemma UnknownSourceType(data: Json, sourceType: string, conv: Conversions)
    requires sourceType != "neo" && sourceType != "sbdb" && sourceType != "feed"
    ensures ProcessData(data, sourceType, conv) == Returned(None)
    ensures FetchAndProcess(Returned(data), sourceType, conv) == None
  {
  }

  /** A failure anywhere on the fetch path gives None instead of propagating, and otherwise the
      normaliser's output is returned as it is. */
  lemma FetchFailuresBecomeNone(response: Outcome<Json>, sourceType: string, conv: Conversions)
    ensures response.Raised? ==> FetchAndProcess(response, sourceType, conv) == None
    ensures response.Returned? && ProcessData(response.value, sourceType, conv).Raised? ==>
      FetchAndProcess(response, sourceType, conv) == None
    ensures response.Returned? && ProcessData(response.value, sourceType, conv).Returned? ==>
      FetchAndProcess(response, sourceType, conv) == ProcessData(response.value, sourceType, conv).value
  {
  }

  /** A NeoWS detail response with an empty `close_approach_data` list is fetched as None. */
  lemma NeoWithoutApproachesIsNone(data: Json, conv: Conversions)
    requires Subscript(data, "close_approach_data") == Returned(JArr([]))
    ensures FetchAndProcess(Returned(data), "neo", conv) == None
  {
    ProcessNeoEmptyApproaches(data, conv);
  }
}
