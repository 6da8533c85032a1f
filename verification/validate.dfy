/** The record validator: the `AsteroidSchema` field constraints, the `cad_data` truncation, and
    `validate_asteroid`, which accepts or rejects a whole record and adds the Tisserand parameter. */
module Validate {
  import opened Values

  /** The bounds pydantic's `Field(gt=.., ge=.., lt=.., le=..)` puts on a float. */
  datatype Limits = Limits(gt: Option<real> := None, ge: Option<real> := None,
                           lt: Option<real> := None, le: Option<real> := None)

  predicate Within(x: real, l: Limits) {
    && (l.gt.Some? ==> x > l.gt.value)
    && (l.ge.Some? ==> x >= l.ge.value)
    && (l.lt.Some? ==> x < l.lt.value)
    && (l.le.Some? ==> x <= l.le.value)
  }

  /** The declared type of a schema field. Datetimes are kept as the text they arrive as. */
  datatype Kind = Str | Bool | Float(limits: Limits) | Int | Datetime | Object | ObjectList

  /** One declared field: `required` fields have no default; the others default to None. */
  datatype FieldSpec = FieldSpec(name: string, required: bool, kind: Kind)

  /** Field number `i` of `AsteroidSchema`, counting from 0 in declaration order (which is also
      `model_dump`'s order); number 16, the last, is `cad_data`. */
  function SchemaField(i: int): FieldSpec {
    match i
    case 0 => FieldSpec("id", true, Str)
    case 1 => FieldSpec("name", true, Str)
    case 2 => FieldSpec("designation", false, Str)
    case 3 => FieldSpec("diameter_km", false, Float(Limits(gt := Some(0.0), le := Some(1000.0))))
    case 4 => FieldSpec("absolute_magnitude", false, Float(Limits()))
    case 5 => FieldSpec("hazardous", true, Bool)
    case 6 => FieldSpec("orbital_eccentricity", false, Float(Limits(ge := Some(0.0), lt := Some(1.0))))
    case 7 => FieldSpec("orbital_inclination", false, Float(Limits(ge := Some(0.0), le := Some(180.0))))
    case 8 => FieldSpec("orbital_semi_major_axis", false, Float(Limits(gt := Some(0.0))))
    case 9 => FieldSpec("orbit_class", false, Str)
    case 10 => FieldSpec("next_approach_date", false, Datetime)
    case 11 => FieldSpec("next_approach_distance_km", false, Float(Limits(gt := Some(0.0))))
    case 12 => FieldSpec("next_approach_velocity", false, Float(Limits(gt := Some(0.0))))
    case 13 => FieldSpec("close_approach_count", false, Int)
    case 14 => FieldSpec("neows_data", false, Object)
    case 15 => FieldSpec("sbdb_data", false, Object)
    case _ => FieldSpec("cad_data", false, ObjectList)
  }

  /** The seventeen fields of `AsteroidSchema`. */
  function AsteroidSchema(): seq<FieldSpec> { seq(17, SchemaField) }

  /** The largest number of close-approach entries a record keeps. */
  const MaxCadEntries: nat := 1000

  /** The keys `validate_asteroid` reads to compute the Tisserand parameter. */
  const SemiMajorAxis := "orbital_semi_major_axis"
  const Eccentricity := "orbital_eccentricity"
  const Inclination := "orbital_inclination"
  const TisserandKey := "tisserand"

  /** `calculate_tisserand(a, e, i)`: cosine and square root, so it is left uninterpreted. */
  type TisserandFn = (real, real, real) -> real

  /** The value a field of kind `k` holds after type validation, or None when pydantic rejects `v`. */
  function Coerce(k: Kind, v: Json): (r: Option<Json>)
    ensures r.Some? ==> r.value == v
  {
    match k
    case Str => if v.JStr? then Some(v) else None
    case Bool => if v.JBool? then Some(v) else None
    case Float(l) => if v.JNum? && Within(v.n, l) then Some(v) else None
    case Int => if v.JNum? && v.n == v.n.Floor as real then Some(v) else None
    case Datetime => if v.JStr? then Some(v) else None
    case Object => if v.JObj? then Some(v) else None
    case ObjectList =>
      if v.JArr? && forall i | 0 <= i < |v.items| :: v.items[i].JObj? then Some(v) else None
  }

  /** `validate_cad_data`: a list longer than the cap keeps only its first entries. */
  function ValidateCadData(items: seq<Json>): (r: seq<Json>)
    ensures |r| <= MaxCadEntries && |r| <= |items|
    ensures r == items[..|r|]
    ensures |items| <= MaxCadEntries ==> r == items
    ensures |items| > MaxCadEntries ==> |r| == MaxCadEntries
  {
    if |items| > MaxCadEntries then items[..MaxCadEntries] else items
  }

  /** The field validator registered for one field name (only `cad_data` has one). */
  function AfterValidator(name: string, v: Json): Json {
    if name == "cad_data" && v.JArr? then JArr(ValidateCadData(v.items)) else v
  }

  /** The outcome for one field, given the member the input has under its name:
      None when validation fails, Some(None) when the field is None (and so left out of the
      dump), Some(Some(x)) when the dump holds x. */
  function FieldValue(f: FieldSpec, given: Option<Json>): Option<Option<Json>> {
    if given.None? || given.value.JNull? then
      if f.required then None else Some(None)
    else
      match Coerce(f.kind, given.value)
      case None => None
      case Some(x) => Some(Some(AfterValidator(f.name, x)))
  }

  /** The names declared by a list of fields. */
  function Names(fs: seq<FieldSpec>): set<string> {
    set i | 0 <= i < |fs| :: fs[i].name
  }

  predicate DistinctNames(fs: seq<FieldSpec>) {
    forall i, j | 0 <= i < j < |fs| :: fs[i].name != fs[j].name
  }

  /** The dump `init` followed by field `name` when its outcome `v` is not None. */
  function Extend(init: Dict, name: string, v: Option<Json>): Dict {
    if v.Some? then init + [(name, v.value)] else init
  }

  /** `Schema(**data).model_dump(exclude_none=True)` for the fields `fs`: None when any field
      fails, otherwise the non-None fields in declaration order. Keys that are not declared
      are ignored. */
  function ValidateFields(fs: seq<FieldSpec>, data: Dict): (r: Option<Dict>)
    ensures r.Some? ==> Keys(r.value) <= Names(fs)
    decreases |fs|
  {
    if fs == [] then Some([])
    else
      var f := fs[|fs| - 1];
      var init :- ValidateFields(fs[..|fs| - 1], data);
      var v :- FieldValue(f, Get(data, f.name));
      assert forall k | k in Keys(init) :: k in Names(fs) by {
        forall k | k in Keys(init) ensures k in Names(fs) {
          var i :| 0 <= i < |fs| - 1 && fs[..|fs| - 1][i].name == k;
          assert fs[i].name == k;
        }
      }
      GetAppend(init, [(f.name, Json.JNull)], f.name);
      assert fs[|fs| - 1].name == f.name;
      Some(Extend(init, f.name, v))
  }

  /** The number held by a dumped float field (every such field holds a JSON number). */
  function Number(v: Option<Json>): real {
    match v
    case Some(JNum(x)) => x
    case _ => 0.0
  }

  /** The three orbital elements a dump must hold for the Tisserand parameter to be added. */
  predicate HasOrbitKeys(validated: Dict) {
    SemiMajorAxis in Keys(validated) && Eccentricity in Keys(validated) && Inclination in Keys(validated)
  }

  /** Lines 44-49 of `validate_asteroid`: a dump holding all three orbital elements gains a
      `tisserand` entry computed from them. */
  function AddTisserand(validated: Dict, tisserand: TisserandFn): Dict {
    if HasOrbitKeys(validated) then
      validated + [(TisserandKey, JNum(tisserand(Number(Get(validated, SemiMajorAxis)),
                                                 Number(Get(validated, Eccentricity)),
                                                 Number(Get(validated, Inclination)))))]
    else validated
  }

  /** `validate_asteroid`: validate and dump the record, then add `tisserand` when all three
      orbital elements survived. Any validation error makes the result None. */
  function ValidateAsteroid(data: Dict, tisserand: TisserandFn): Option<Dict> {
    match ValidateFields(AsteroidSchema(), data)
    case None => None
    case Some(validated) => Some(AddTisserand(validated, tisserand))
  }

  // ---------------------------------------------------------------------------------------
  // The schema, restated field by field

  /** A member that is absent or None, or else a value `ok` accepts. */
  predicate Optional(v: Option<Json>, ok: Json -> bool) {
    v.None? || v.value.JNull? || ok(v.value)
  }

  /** A member that is present and not None and a value `ok` accepts. */
  predicate Required(v: Option<Json>, ok: Json -> bool) {
    v.Some? && !v.value.JNull? && ok(v.value)
  }

  /** The record `AsteroidSchema` accepts, written out one field at a time. */
  predicate Conforms(data: Dict) {
    && Required(Get(data, "id"), (v: Json) => v.JStr?)
    && Required(Get(data, "name"), (v: Json) => v.JStr?)
    && Optional(Get(data, "designation"), (v: Json) => v.JStr?)
    && Optional(Get(data, "diameter_km"), (v: Json) => v.JNum? && 0.0 < v.n <= 1000.0)
    && Optional(Get(data, "absolute_magnitude"), (v: Json) => v.JNum?)
    && Required(Get(data, "hazardous"), (v: Json) => v.JBool?)
    && Optional(Get(data, "orbital_eccentricity"), (v: Json) => v.JNum? && 0.0 <= v.n < 1.0)
    && Optional(Get(data, "orbital_inclination"), (v: Json) => v.JNum? && 0.0 <= v.n <= 180.0)
    && Optional(Get(data, "orbital_semi_major_axis"), (v: Json) => v.JNum? && v.n > 0.0)
    && Optional(Get(data, "orbit_class"), (v: Json) => v.JStr?)
    && Optional(Get(data, "next_approach_date"), (v: Json) => v.JStr?)
    && Optional(Get(data, "next_approach_distance_km"), (v: Json) => v.JNum? && v.n > 0.0)
    && Optional(Get(data, "next_approach_velocity"), (v: Json) => v.JNum? && v.n > 0.0)
    && Optional(Get(data, "close_approach_count"), (v: Json) => v.JNum? && v.n == v.n.Floor as real)
    && Optional(Get(data, "neows_data"), (v: Json) => v.JObj?)
    && Optional(Get(data, "sbdb_data"), (v: Json) => v.JObj?)
    && Optional(Get(data, "cad_data"), (v: Json) => v.JArr? && forall i | 0 <= i < |v.items| :: v.items[i].JObj?)
  }

  /** The value the dump holds for a declared field: nothing when the input member is absent
      or None, the member itself otherwise (a `cad_data` list cut to the cap). */
  function Dumped(name: string, given: Option<Json>): Option<Json> {
    if given.None? || given.value.JNull? then None else Some(AfterValidator(name, given.value))
  }

  /** The three orbital elements the Tisserand parameter needs are all present and not None. */
  predicate HasOrbit(data: Dict) {
    && Get(data, SemiMajorAxis).Some? && !Get(data, SemiMajorAxis).value.JNull?
    && Get(data, Eccentricity).Some? && !Get(data, Eccentricity).value.JNull?
    && Get(data, Inclination).Some? && !Get(data, Inclination).value.JNull?
  }

  // ---------------------------------------------------------------------------------------
  // Lemmas about the field-by-field validation

  /** Field `f` accepts the record's member under its name. */
  predicate FieldAccepted(f: FieldSpec, data: Dict) {
    FieldValue(f, Get(data, f.name)).Some?
  }

  /** Validation succeeds exactly when every declared field succeeds. */
  lemma {:induction false} ValidateFieldsAccepts(fs: seq<FieldSpec>, data: Dict)
    ensures ValidateFields(fs, data).Some? <==>
            forall i | 0 <= i < |fs| :: FieldAccepted(fs[i], data)
    decreases |fs|
  {
    if fs != [] {
      var n := |fs| - 1;
      ValidateFieldsAccepts(fs[..n], data);
      assert forall i | 0 <= i < n :: fs[..n][i] == fs[i];
    }
  }

  /** No other field of `fs` shares the name of field `i`. */
  predicate UniqueAt(fs: seq<FieldSpec>, i: nat)
    requires i < |fs|
  {
    forall j | 0 <= j < |fs| && j != i :: fs[j].name != fs[i].name
  }

  /** Reading a key back from a dump extended by one field. */
  lemma GetExtend(init: Dict, name: string, v: Option<Json>, k: string)
    ensures Get(Extend(init, name, v), k) == if k == name && v.Some? then v else Get(init, k)
  {
    if v.Some? {
      assert Keys([(name, v.value)]) == {name};
      GetAppend(init, [(name, v.value)], k);
    }
  }

  /** An accepted dump of `fs` is the accepted dump of all fields but the last, extended by
      the last field's outcome. */
  lemma ValidateFieldsLast(fs: seq<FieldSpec>, data: Dict)
    requires fs != [] && ValidateFields(fs, data).Some?
    ensures ValidateFields(fs[..|fs| - 1], data).Some?
    ensures FieldValue(fs[|fs| - 1], Get(data, fs[|fs| - 1].name)).Some?
    ensures ValidateFields(fs, data).value ==
      Extend(ValidateFields(fs[..|fs| - 1], data).value, fs[|fs| - 1].name,
             FieldValue(fs[|fs| - 1], Get(data, fs[|fs| - 1].name)).value)
  {
  }

  /** A field whose name no other field shares is found in the dump with exactly its outcome. */
  lemma {:induction false} ValidateFieldsGet(fs: seq<FieldSpec>, data: Dict, i: nat)
    requires ValidateFields(fs, data).Some? && i < |fs| && UniqueAt(fs, i)
    ensures FieldValue(fs[i], Get(data, fs[i].name)) == Some(Get(ValidateFields(fs, data).value, fs[i].name))
    decreases |fs|
  {
    var n := |fs| - 1;
    ValidateFieldsLast(fs, data);
    var init := ValidateFields(fs[..n], data).value;
    GetExtend(init, fs[n].name, FieldValue(fs[n], Get(data, fs[n].name)).value, fs[i].name);
    if i < n {
      assert fs[..n][i] == fs[i];
      assert UniqueAt(fs[..n], i) by {
        forall j | 0 <= j < n && j != i ensures fs[..n][j].name != fs[..n][i].name {
          assert fs[..n][j] == fs[j];
        }
      }
      ValidateFieldsGet(fs[..n], data, i);
    } else {
      assert forall j | 0 <= j < n :: fs[..n][j] == fs[j];
      assert fs[n].name !in Names(fs[..n]);
    }
  }

  lemma SchemaNamesDistinct()
    ensures DistinctNames(AsteroidSchema())
    ensures TisserandKey !in Names(AsteroidSchema())
  {
  }

  /** No other field of the schema shares field `i`'s name. */
  lemma SchemaFieldUnique(i: nat)
    requires i < |AsteroidSchema()|
    ensures UniqueAt(AsteroidSchema(), i)
  {
    SchemaNamesDistinct();
  }

  // ---------------------------------------------------------------------------------------
  // What validate_asteroid promises

  /** A record is accepted exactly when it conforms to the schema: the required `id`, `name`
      and `hazardous` are present, and every other declared field is absent, None or in range. */
  lemma ValidateAsteroidAccepts(data: Dict, tisserand: TisserandFn)
    ensures ValidateAsteroid(data, tisserand).Some? <==> Conforms(data)
  {
    ValidateFieldsAccepts(AsteroidSchema(), data);
    AllOfSeventeen(AsteroidSchema(), data);
    SchemaFieldNames();
    IdentityFieldsOk(Get(data, "id"), Get(data, "name"), Get(data, "designation"), Get(data, "hazardous"));
    PhysicalFieldsOk(Get(data, "diameter_km"), Get(data, "absolute_magnitude"), Get(data, "orbit_class"));
    OrbitFieldsOk(Get(data, Eccentricity), Get(data, Inclination), Get(data, SemiMajorAxis));
    ApproachFieldsOk(Get(data, "next_approach_date"), Get(data, "next_approach_distance_km"),
                     Get(data, "next_approach_velocity"), Get(data, "close_approach_count"));
    RawDataFieldsOk(Get(data, "neows_data"), Get(data, "sbdb_data"), Get(data, "cad_data"));
  }

  /** Field number `i` of the schema accepts `given` as the record's member under its name. */
  predicate Accepts(i: nat, given: Option<Json>)
    requires i < |AsteroidSchema()|
  {
    FieldValue(AsteroidSchema()[i], given).Some?
  }

  /** Seventeen fields accept a record together exactly when each of them does. */
  lemma AllOfSeventeen(fs: seq<FieldSpec>, data: Dict)
    requires |fs| == 17
    ensures (forall i | 0 <= i < |fs| :: FieldAccepted(fs[i], data)) <==>
      (&& FieldAccepted(fs[0], data) && FieldAccepted(fs[1], data) && FieldAccepted(fs[2], data)
       && FieldAccepted(fs[3], data) && FieldAccepted(fs[4], data) && FieldAccepted(fs[5], data)
       && FieldAccepted(fs[6], data) && FieldAccepted(fs[7], data) && FieldAccepted(fs[8], data)
       && FieldAccepted(fs[9], data) && FieldAccepted(fs[10], data) && FieldAccepted(fs[11], data)
       && FieldAccepted(fs[12], data) && FieldAccepted(fs[13], data) && FieldAccepted(fs[14], data)
       && FieldAccepted(fs[15], data) && FieldAccepted(fs[16], data))
  {
  }

  /** The names of the schema's fields, in declaration order. */
  lemma SchemaFieldNames()
    ensures && AsteroidSchema()[0].name == "id" && AsteroidSchema()[1].name == "name"
            && AsteroidSchema()[2].name == "designation" && AsteroidSchema()[3].name == "diameter_km"
            && AsteroidSchema()[4].name == "absolute_magnitude" && AsteroidSchema()[5].name == "hazardous"
            && AsteroidSchema()[6].name == Eccentricity && AsteroidSchema()[7].name == Inclination
            && AsteroidSchema()[8].name == SemiMajorAxis && AsteroidSchema()[9].name == "orbit_class"
            && AsteroidSchema()[10].name == "next_approach_date"
            && AsteroidSchema()[11].name == "next_approach_distance_km"
            && AsteroidSchema()[12].name == "next_approach_velocity"
            && AsteroidSchema()[13].name == "close_approach_count" && AsteroidSchema()[14].name == "neows_data"
            && AsteroidSchema()[15].name == "sbdb_data" && AsteroidSchema()[16].name == "cad_data"
  {
  }

  /** The schema entries for `id`, `name`, `designation` and `hazardous`, restated. */
  lemma IdentityFieldsOk(id: Option<Json>, name: Option<Json>, designation: Option<Json>, hazardous: Option<Json>)
    ensures Accepts(0, id) <==> Required(id, (v: Json) => v.JStr?)
    ensures Accepts(1, name) <==> Required(name, (v: Json) => v.JStr?)
    ensures Accepts(2, designation) <==> Optional(designation, (v: Json) => v.JStr?)
    ensures Accepts(5, hazardous) <==> Required(hazardous, (v: Json) => v.JBool?)
  {
  }

  /** The schema entries for `diameter_km`, `absolute_magnitude` and `orbit_class`, restated. */
  lemma PhysicalFieldsOk(diameter: Option<Json>, magnitude: Option<Json>, orbitClass: Option<Json>)
    ensures Accepts(3, diameter) <==> Optional(diameter, (v: Json) => v.JNum? && 0.0 < v.n <= 1000.0)
    ensures Accepts(4, magnitude) <==> Optional(magnitude, (v: Json) => v.JNum?)
    ensures Accepts(9, orbitClass) <==> Optional(orbitClass, (v: Json) => v.JStr?)
  {
  }

  /** The schema entries for the three orbital elements, restated. */
  lemma OrbitFieldsOk(e: Option<Json>, i: Option<Json>, a: Option<Json>)
    ensures Accepts(6, e) <==> Optional(e, (v: Json) => v.JNum? && 0.0 <= v.n < 1.0)
    ensures Accepts(7, i) <==> Optional(i, (v: Json) => v.JNum? && 0.0 <= v.n <= 180.0)
    ensures Accepts(8, a) <==> Optional(a, (v: Json) => v.JNum? && v.n > 0.0)
  {
  }

  /** The schema entries for the next-approach fields, restated. */
  lemma ApproachFieldsOk(date: Option<Json>, distance: Option<Json>, velocity: Option<Json>, count: Option<Json>)
    ensures Accepts(10, date) <==> Optional(date, (v: Json) => v.JStr?)
    ensures Accepts(11, distance) <==> Optional(distance, (v: Json) => v.JNum? && v.n > 0.0)
    ensures Accepts(12, velocity) <==> Optional(velocity, (v: Json) => v.JNum? && v.n > 0.0)
    ensures Accepts(13, count) <==> Optional(count, (v: Json) => v.JNum? && v.n == v.n.Floor as real)
  {
  }

  /** The schema entries for the raw payload fields, restated. */
  lemma RawDataFieldsOk(neows: Option<Json>, sbdb: Option<Json>, cad: Option<Json>)
    ensures Accepts(14, neows) <==> Optional(neows, (v: Json) => v.JObj?)
    ensures Accepts(15, sbdb) <==> Optional(sbdb, (v: Json) => v.JObj?)
    ensures Accepts(16, cad) <==> Optional(cad, (v: Json) => v.JArr? && forall i | 0 <= i < |v.items| :: v.items[i].JObj?)
  {
  }

  /** With distinct names, the dump holds under each declared name the field's dumped value. */
  lemma ValidateFieldsDump(fs: seq<FieldSpec>, data: Dict)
    requires DistinctNames(fs) && ValidateFields(fs, data).Some?
    ensures forall k | k in Names(fs) :: Get(ValidateFields(fs, data).value, k) == Dumped(k, Get(data, k))
  {
    forall k | k in Names(fs)
      ensures Get(ValidateFields(fs, data).value, k) == Dumped(k, Get(data, k))
    {
      var i :| 0 <= i < |fs| && fs[i].name == k;
      assert UniqueAt(fs, i);
      ValidateFieldsGet(fs, data, i);
    }
  }

  /** Adding `tisserand` changes the value under that key only, and only when the dump holds
      the three orbital elements. */
  lemma AddTisserandGet(validated: Dict, tisserand: TisserandFn, k: string)
    requires TisserandKey !in Keys(validated)
    ensures Get(AddTisserand(validated, tisserand), k) ==
      if k != TisserandKey then Get(validated, k)
      else if HasOrbitKeys(validated) then
        Some(JNum(tisserand(Number(Get(validated, SemiMajorAxis)), Number(Get(validated, Eccentricity)),
                            Number(Get(validated, Inclination)))))
      else None
  {
    if HasOrbitKeys(validated) {
      var e := [(TisserandKey, AddTisserand(validated, tisserand)[|validated|].1)];
      assert AddTisserand(validated, tisserand) == validated + e;
      assert Keys(e) == {TisserandKey};
      GetAppend(validated, e, k);
    }
  }

  /** The accepted record holds, under each declared name, the input's member when it is
      present and not None (with `cad_data` cut to the cap) and nothing otherwise; it holds
      no other key but `tisserand`, and no value None. */
  lemma ValidatedFields(data: Dict, tisserand: TisserandFn)
    requires ValidateAsteroid(data, tisserand).Some?
    ensures var out := ValidateAsteroid(data, tisserand).value;
      && (forall k | k in Names(AsteroidSchema()) :: Get(out, k) == Dumped(k, Get(data, k)))
      && (forall k | k in Keys(out) :: k in Names(AsteroidSchema()) || k == TisserandKey)
      && (forall k | k in Keys(out) :: !Get(out, k).value.JNull?)
  {
    var validated := ValidateFields(AsteroidSchema(), data).value;
    SchemaNamesDistinct();
    ValidateFieldsDump(AsteroidSchema(), data);
    forall k | k in Keys(validated) ensures !Get(validated, k).value.JNull? {
      assert Get(validated, k) == Dumped(k, Get(data, k));
    }
    TisserandKeepsDump(validated, tisserand, Names(AsteroidSchema()));
  }

  /** Adding `tisserand` to a dump whose keys are declared names keeps every declared name's
      value, adds no key but `tisserand`, and adds no None. */
  lemma TisserandKeepsDump(validated: Dict, tisserand: TisserandFn, names: set<string>)
    requires Keys(validated) <= names && TisserandKey !in names
    requires forall k | k in Keys(validated) :: !Get(validated, k).value.JNull?
    ensures var out := AddTisserand(validated, tisserand);
      && (forall k | k in names :: Get(out, k) == Get(validated, k))
      && (forall k | k in Keys(out) :: k in names || k == TisserandKey)
      && (forall k | k in Keys(out) :: !Get(out, k).value.JNull?)
  {
    forall k {
      AddTisserandGet(validated, tisserand, k);
    }
  }

  /** The schema's dump holds under a declared name that field's dumped value. */
  lemma SchemaFieldDump(data: Dict, k: string)
    requires ValidateFields(AsteroidSchema(), data).Some? && k in Names(AsteroidSchema())
    ensures Get(ValidateFields(AsteroidSchema(), data).value, k) == Dumped(k, Get(data, k))
  {
    SchemaNamesDistinct();
    ValidateFieldsDump(AsteroidSchema(), data);
  }

  /** The Tisserand inputs are declared fields of the schema. */
  lemma OrbitNamesDeclared()
    ensures Eccentricity in Names(AsteroidSchema()) && Inclination in Names(AsteroidSchema())
    ensures SemiMajorAxis in Names(AsteroidSchema())
  {
    assert AsteroidSchema()[6].name == Eccentricity;
    assert AsteroidSchema()[7].name == Inclination;
    assert AsteroidSchema()[8].name == SemiMajorAxis;
  }

  /** What the dump holds for the three orbital elements. */
  lemma OrbitDumped(data: Dict)
    requires ValidateFields(AsteroidSchema(), data).Some?
    ensures Get(ValidateFields(AsteroidSchema(), data).value, Eccentricity) == Dumped(Eccentricity, Get(data, Eccentricity))
    ensures Get(ValidateFields(AsteroidSchema(), data).value, Inclination) == Dumped(Inclination, Get(data, Inclination))
    ensures Get(ValidateFields(AsteroidSchema(), data).value, SemiMajorAxis) == Dumped(SemiMajorAxis, Get(data, SemiMajorAxis))
  {
    OrbitNamesDeclared();
    SchemaFieldDump(data, Eccentricity);
    SchemaFieldDump(data, Inclination);
    SchemaFieldDump(data, SemiMajorAxis);
  }

  /** An accepted record's orbital elements lie in the schema's ranges. */
  lemma OrbitInRange(data: Dict)
    requires ValidateFields(AsteroidSchema(), data).Some?
    ensures Optional(Get(data, Eccentricity), (v: Json) => v.JNum? && 0.0 <= v.n < 1.0)
    ensures Optional(Get(data, Inclination), (v: Json) => v.JNum? && 0.0 <= v.n <= 180.0)
    ensures Optional(Get(data, SemiMajorAxis), (v: Json) => v.JNum? && v.n > 0.0)
  {
    ValidateFieldsAccepts(AsteroidSchema(), data);
    assert FieldAccepted(AsteroidSchema()[6], data) && FieldAccepted(AsteroidSchema()[7], data) && FieldAccepted(AsteroidSchema()[8], data);
    SchemaFieldNames();
    OrbitFieldsOk(Get(data, Eccentricity), Get(data, Inclination), Get(data, SemiMajorAxis));
  }

  /** `tisserand` is added exactly when semi-major axis, eccentricity and inclination are all
      present, and then it is `calculate_tisserand` of those three values, each inside the
      domain the schema guarantees: a > 0, 0 <= e < 1, 0 <= i <= 180. */
  lemma TisserandPresence(data: Dict, tisserand: TisserandFn)
    requires ValidateAsteroid(data, tisserand).Some?
    ensures var out := ValidateAsteroid(data, tisserand).value;
      && (TisserandKey in Keys(out) <==> HasOrbit(data))
      && (HasOrbit(data) ==>
            var a, e, i := Get(data, SemiMajorAxis).value, Get(data, Eccentricity).value, Get(data, Inclination).value;
            && a.JNum? && a.n > 0.0
            && e.JNum? && 0.0 <= e.n < 1.0
            && i.JNum? && 0.0 <= i.n <= 180.0
            && Get(out, TisserandKey) == Some(JNum(tisserand(a.n, e.n, i.n))))
  {
    var validated := ValidateFields(AsteroidSchema(), data).value;
    OrbitDumped(data);
    OrbitInRange(data);
    SchemaNamesDistinct();
    AddTisserandGet(validated, tisserand, TisserandKey);
  }

  // ---------------------------------------------------------------------------------------
  // Single fields: ranges, required fields, truncation

  /** Overriding the member under field `i`'s name (which no other field shares) by `v`: a
      record that was accepted stays accepted exactly when field `i` accepts `v`. */
  lemma SetFieldAccepts(fs: seq<FieldSpec>, data: Dict, i: nat, v: Json)
    requires i < |fs| && UniqueAt(fs, i) && ValidateFields(fs, data).Some?
    ensures ValidateFields(fs, data + [(fs[i].name, v)]).Some? <==> FieldValue(fs[i], Some(v)).Some?
  {
    var updated := data + [(fs[i].name, v)];
    ValidateFieldsAccepts(fs, data);
    ValidateFieldsAccepts(fs, updated);
    assert Keys([(fs[i].name, v)]) == {fs[i].name};
    forall j | 0 <= j < |fs|
      ensures Get(updated, fs[j].name) == if j == i then Some(v) else Get(data, fs[j].name)
    {
      GetAppend(data, [(fs[i].name, v)], fs[j].name);
    }
  }

  /** A number outside a float field's bounds rejects the whole record, whatever else it holds. */
  lemma OutOfRangeRejected(data: Dict, tisserand: TisserandFn, i: nat, x: real)
    requires i < |AsteroidSchema()| && AsteroidSchema()[i].kind.Float?
    requires !Within(x, AsteroidSchema()[i].kind.limits)
    ensures ValidateAsteroid(data + [(AsteroidSchema()[i].name, JNum(x))], tisserand).None?
  {
    var f := AsteroidSchema()[i];
    var updated := data + [(f.name, JNum(x))];
    assert Keys([(f.name, JNum(x))]) == {f.name};
    GetAppend(data, [(f.name, JNum(x))], f.name);
    ValidateFieldsAccepts(AsteroidSchema(), updated);
    assert !FieldAccepted(AsteroidSchema()[i], updated);
  }

  /** A diameter outside (0, 1000] rejects the record: 1500 km, say. */
  lemma DiameterOutOfRangeRejected(data: Dict, tisserand: TisserandFn, x: real)
    requires !(0.0 < x <= 1000.0)
    ensures ValidateAsteroid(data + [("diameter_km", JNum(x))], tisserand).None?
    ensures ValidateAsteroid(data + [("diameter_km", JNum(1500.0))], tisserand).None?
  {
    OutOfRangeRejected(data, tisserand, 3, x);
    OutOfRangeRejected(data, tisserand, 3, 1500.0);
  }

  /** Eccentricity lies in [0, 1): on an accepted record, 0.0 is accepted and 1.0 rejected. */
  lemma EccentricityBounds(data: Dict, tisserand: TisserandFn)
    requires ValidateAsteroid(data, tisserand).Some?
    ensures ValidateAsteroid(data + [(Eccentricity, JNum(0.0))], tisserand).Some?
    ensures ValidateAsteroid(data + [(Eccentricity, JNum(1.0))], tisserand).None?
  {
    var fs := AsteroidSchema();
    SchemaFieldUnique(6);
    assert FieldValue(fs[6], Some(JNum(0.0))).Some?;
    SetFieldAccepts(fs, data, 6, JNum(0.0));
    OutOfRangeRejected(data, tisserand, 6, 1.0);
  }

  /** An inclination outside [0, 180] or a semi-major axis that is not positive rejects the
      whole record. */
  lemma OrbitOutOfRangeRejected(data: Dict, tisserand: TisserandFn, x: real)
    ensures !(0.0 <= x < 1.0) ==> ValidateAsteroid(data + [(Eccentricity, JNum(x))], tisserand).None?
    ensures !(0.0 <= x <= 180.0) ==> ValidateAsteroid(data + [(Inclination, JNum(x))], tisserand).None?
    ensures x <= 0.0 ==> ValidateAsteroid(data + [(SemiMajorAxis, JNum(x))], tisserand).None?
  {
    if !(0.0 <= x < 1.0) {
      OutOfRangeRejected(data, tisserand, 6, x);
    }
    if !(0.0 <= x <= 180.0) {
      OutOfRangeRejected(data, tisserand, 7, x);
    }
    if x <= 0.0 {
      OutOfRangeRejected(data, tisserand, 8, x);
    }
  }

  /** A next-approach distance or velocity that is not positive rejects the whole record. */
  lemma ApproachOutOfRangeRejected(data: Dict, tisserand: TisserandFn, x: real)
    requires x <= 0.0
    ensures ValidateAsteroid(data + [("next_approach_distance_km", JNum(x))], tisserand).None?
    ensures ValidateAsteroid(data + [("next_approach_velocity", JNum(x))], tisserand).None?
  {
    OutOfRangeRejected(data, tisserand, 11, x);
    OutOfRangeRejected(data, tisserand, 12, x);
  }

  /** The member is absent or None. */
  predicate Missing(v: Option<Json>) {
    v.None? || v.value.JNull?
  }

  /** A record without `id`, `name` or `hazardous` (or with one of them None) is rejected. */
  lemma MissingRequiredRejected(data: Dict, tisserand: TisserandFn)
    requires Missing(Get(data, "id")) || Missing(Get(data, "name")) || Missing(Get(data, "hazardous"))
    ensures ValidateAsteroid(data, tisserand).None?
  {
    ValidateAsteroidAccepts(data, tisserand);
  }

  /** `id` and `cad_data` are declared fields of the schema. */
  lemma IdAndCadDeclared()
    ensures "id" in Names(AsteroidSchema()) && "cad_data" in Names(AsteroidSchema())
  {
    assert AsteroidSchema()[0].name == "id";
    assert AsteroidSchema()[16].name == "cad_data";
  }

  /** An accepted record keeps its `id`, which is a string. */
  lemma ValidatedId(data: Dict, tisserand: TisserandFn)
    requires ValidateAsteroid(data, tisserand).Some?
    ensures Get(data, "id").Some? && Get(data, "id").value.JStr?
    ensures Get(ValidateAsteroid(data, tisserand).value, "id") == Get(data, "id")
  {
    ValidateAsteroidAccepts(data, tisserand);
    ValidatedFields(data, tisserand);
    IdAndCadDeclared();
  }

  /** An accepted record's `cad_data` list is its input list cut to the first 1000 entries: a
      longer list is shortened, not rejected. */
  lemma CadDataCapped(data: Dict, tisserand: TisserandFn, items: seq<Json>)
    requires ValidateAsteroid(data, tisserand).Some? && Get(data, "cad_data") == Some(JArr(items))
    ensures Get(ValidateAsteroid(data, tisserand).value, "cad_data") == Some(JArr(ValidateCadData(items)))
  {
    ValidatedFields(data, tisserand);
    IdAndCadDeclared();
  }
}
