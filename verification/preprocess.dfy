/** `NEOPreprocessor`: per-row threat features (threat score, Palermo value, Torino bucket)
    computed over the asteroid table, and the rule that any failure gives None. */
module Preprocess {
  import opened Values
  import Database

  // ---------------------------------------------------------------------------------------
  // pandas float arithmetic

  /** A float64 value in a pandas column: a finite value, an infinity or NaN. A NULL database
      value reads as NaN. Rounding is not modelled: finite values are exact reals. */
  datatype Ext = Fin(x: real) | PosInf | NegInf | NaN

  function Sign(a: Ext): int {
    match a
    case Fin(x) => if x > 0.0 then 1 else if x < 0.0 then -1 else 0
    case PosInf => 1
    case NegInf => -1
    case NaN => 0
  }

  /** IEEE addition: NaN absorbs, opposite infinities give NaN. */
  function Add(a: Ext, b: Ext): Ext {
    if a.NaN? || b.NaN? then NaN
    else if (a.PosInf? && b.NegInf?) || (a.NegInf? && b.PosInf?) then NaN
    else if a.PosInf? || b.PosInf? then PosInf
    else if a.NegInf? || b.NegInf? then NegInf
    else Fin(a.x + b.x)
  }

  /** IEEE multiplication: NaN absorbs, an infinity times zero is NaN. */
  function Mul(a: Ext, b: Ext): Ext {
    if a.NaN? || b.NaN? then NaN
    else if a.Fin? && b.Fin? then Fin(a.x * b.x)
    else if Sign(a) * Sign(b) > 0 then PosInf
    else if Sign(a) * Sign(b) < 0 then NegInf
    else NaN
  }

  /** IEEE division: a non-zero value over zero is an infinity of its sign, zero over zero and
      infinity over infinity are NaN, a finite value over an infinity is zero. The sign of a
      zero is not modelled. */
  function Div(a: Ext, b: Ext): Ext {
    if a.NaN? || b.NaN? then NaN
    else if a.Fin? && b.Fin? then
      if b.x != 0.0 then Fin(a.x / b.x)
      else if a.x > 0.0 then PosInf
      else if a.x < 0.0 then NegInf
      else NaN
    else if a.Fin? then Fin(0.0)
    else if b.Fin? then (if Sign(b) < 0 then (if a.PosInf? then NegInf else PosInf) else a)
    else NaN
  }

  /** A Float column value: NULL reads as NaN. */
  function Col(v: Option<real>): Ext {
    if v.Some? then Fin(v.value) else NaN
  }

  // ---------------------------------------------------------------------------------------
  // _calculate_features, per row

  /** The constant added to the distance so that a zero distance does not divide by zero. */
  const Epsilon: real := 0.000001

  /** `threat_score = diameter * velocity / (distance + 1e-6)`. */
  function ThreatScore(diameter: Option<real>, velocity: Option<real>, distance: Option<real>): Ext {
    Div(Mul(Col(diameter), Col(velocity)), Add(Col(distance), Fin(Epsilon)))
  }

  /** `threat_score.clip(lower=1e-6)`: values below the bound are raised to it; NaN stays
      NaN. */
  function PalermoArgument(t: Ext): (r: Ext)
    ensures t.NaN? <==> r.NaN?
    ensures !t.NaN? ==> r.PosInf? || (r.Fin? && r.x >= Epsilon)
  {
    match t
    case Fin(x) => if x < Epsilon then Fin(Epsilon) else t
    case NegInf => Fin(Epsilon)
    case PosInf => PosInf
    case NaN => NaN
  }

  /** `np.log10` on a column value, with the logarithm of a positive real left as a
      parameter. */
  function Log10(a: Ext, log10: real -> real): Ext {
    match a
    case Fin(x) => if x > 0.0 then Fin(log10(x)) else if x == 0.0 then NegInf else NaN
    case PosInf => PosInf
    case NegInf => NaN
    case NaN => NaN
  }

  /** `palermo_scale = log10(clip(threat_score, lower=1e-6))`. */
  function PalermoScale(t: Ext, log10: real -> real): Ext {
    Log10(PalermoArgument(t), log10)
  }

  /** `pd.cut(threat_score, bins=[-inf, 0.1, 1, 10, 100, inf], labels=[0, 1, 2, 3, 4])`: the
      bins are open on the left and closed on the right, so NaN and -inf fall in no bin. */
  function TorinoBucket(t: Ext): (r: Option<nat>)
    ensures r.Some? ==> r.value <= 4
  {
    match t
    case NaN => None
    case NegInf => None
    case PosInf => Some(4)
    case Fin(x) =>
      if x <= 0.1 then Some(0)
      else if x <= 1.0 then Some(1)
      else if x <= 10.0 then Some(2)
      else if x <= 100.0 then Some(3)
      else Some(4)
  }

  /** The finite bin edges. */
  function Edges(): seq<real> {
    [0.1, 1.0, 10.0, 100.0]
  }

  /** Reference definition of a right-closed bin: the number of finite edges strictly below
      `x`. */
  function EdgesBelow(x: real, edges: seq<real>): nat
    decreases |edges|
  {
    if edges == [] then 0
    else (if edges[0] < x then 1 else 0) + EdgesBelow(x, edges[1..])
  }

  /** The features one row receives. */
  datatype Features = Features(threat: Ext, palermo: Ext, torino: Option<nat>)

  function RowFeatures(diameter: Option<real>, velocity: Option<real>, distance: Option<real>, log10: real -> real): Features {
    var t := ThreatScore(diameter, velocity, distance);
    Features(t, PalermoScale(t, log10), TorinoBucket(t))
  }

  // ---------------------------------------------------------------------------------------
  // Properties of the features

  /** With the distance non-negative the denominator is positive, and with every value present
      the score is the finite quotient. */
  lemma ThreatScoreDefined(diameter: real, velocity: real, distance: real)
    requires distance >= 0.0
    ensures distance + Epsilon > 0.0
    ensures ThreatScore(Some(diameter), Some(velocity), Some(distance)) ==
      Fin(diameter * velocity / (distance + Epsilon))
  {
  }

  /** A NULL diameter, velocity or distance gives a NaN score, a NaN Palermo value and no
      Torino bucket. */
  lemma MissingValueGivesNaN(diameter: Option<real>, velocity: Option<real>, distance: Option<real>, log10: real -> real)
    requires diameter.None? || velocity.None? || distance.None?
    ensures var f := RowFeatures(diameter, velocity, distance, log10);
      f.threat.NaN? && f.palermo.NaN? && f.torino.None?
  {
  }

  lemma DivMonotone(a: real, b: real, d: real)
    requires 0.0 <= a <= b && d > 0.0
    ensures a / d <= b / d
  {
    assert b / d - a / d == (b - a) / d;
  }

  lemma DivAntitone(n: real, d: real, e: real)
    requires n >= 0.0 && 0.0 < d <= e
    ensures n / e <= n / d
  {
    assert n / d - n / e == n * (e - d) / (d * e);
    assert n * (e - d) >= 0.0 by {
      MulNonNegative(n, e - d);
    }
    assert d * e > 0.0 by {
      MulPositive(d, e);
    }
  }

  lemma MulNonNegative(a: real, b: real)
    requires a >= 0.0 && b >= 0.0
    ensures a * b >= 0.0
  {
  }

  lemma MulPositive(a: real, b: real)
    requires a > 0.0 && b > 0.0
    ensures a * b > 0.0
  {
  }

  lemma MulMonotone(a: real, b: real, c: real)
    requires 0.0 <= a <= b && c >= 0.0
    ensures a * c <= b * c
  {
    MulNonNegative(b - a, c);
  }

  /** The quotient behind the threat score, for non-negative inputs. */
  lemma QuotientMonotone(d: real, d': real, v: real, v': real, r: real, r': real)
    requires 0.0 <= d <= d' && 0.0 <= v <= v' && 0.0 <= r' <= r
    ensures d * v / (r + Epsilon) <= d' * v' / (r' + Epsilon)
  {
    MulMonotone(d, d', v);
    MulMonotone(v, v', d');
    assert d' * v == v * d' && d' * v' == v' * d';
    MulNonNegative(d, v);
    DivMonotone(d * v, d' * v', r + Epsilon);
    DivAntitone(d' * v', r' + Epsilon, r + Epsilon);
  }

  /** With non-negative inputs the threat score grows with the diameter and with the velocity
      and shrinks with the distance. */
  lemma ThreatScoreMonotone(d: real, d': real, v: real, v': real, r: real, r': real)
    requires 0.0 <= d <= d' && 0.0 <= v <= v' && 0.0 <= r' <= r
    ensures ThreatScore(Some(d), Some(v), Some(r)).Fin? && ThreatScore(Some(d'), Some(v'), Some(r')).Fin?
    ensures ThreatScore(Some(d), Some(v), Some(r)).x <= ThreatScore(Some(d'), Some(v'), Some(r')).x
  {
    ThreatScoreDefined(d, v, r);
    ThreatScoreDefined(d', v', r');
    QuotientMonotone(d, d', v, v', r, r');
  }

  /** The argument of the Palermo logarithm is never below 1e-6: a score at or above the bound
      is kept, one below it (or -inf) is raised to it, and NaN stays NaN. So, whatever `log10`
      gives on positive reals, the Palermo value is `log10` of the score or of 1e-6, +inf for
      +inf, and never -inf; it is NaN only for a NaN score. */
  lemma PalermoClamp(t: Ext, log10: real -> real)
    ensures t.Fin? && t.x >= Epsilon ==> PalermoArgument(t) == t
    ensures (t.Fin? && t.x < Epsilon) || t.NegInf? ==> PalermoArgument(t) == Fin(Epsilon)
    ensures t.Fin? && t.x >= Epsilon ==> PalermoScale(t, log10) == Fin(log10(t.x))
    ensures (t.Fin? && t.x < Epsilon) || t.NegInf? ==> PalermoScale(t, log10) == Fin(log10(Epsilon))
    ensures t.PosInf? ==> PalermoScale(t, log10) == PosInf
    ensures PalermoScale(t, log10).NaN? <==> t.NaN?
    ensures !t.NaN? ==> PalermoScale(t, log10).Fin? || PalermoScale(t, log10).PosInf?
  {
  }

  /** The bucket of a finite score is the number of bin edges strictly below it: the bins are
      closed on the right. */
  lemma TorinoCountsEdges(x: real)
    ensures TorinoBucket(Fin(x)) == Some(EdgesBelow(x, Edges()))
  {
    var e := Edges();
    assert e[1..] == [1.0, 10.0, 100.0];
    assert e[1..][1..] == [10.0, 100.0];
    assert e[1..][1..][1..] == [100.0];
    assert e[1..][1..][1..][1..] == [];
  }

  /** `EdgesBelow` grows with `x` over sorted edges. */
  lemma {:induction false} EdgesBelowMonotone(x: real, y: real, edges: seq<real>)
    requires x <= y
    ensures EdgesBelow(x, edges) <= EdgesBelow(y, edges)
    decreases |edges|
  {
    if edges != [] {
      EdgesBelowMonotone(x, y, edges[1..]);
    }
  }

  /** The Torino bucket never decreases as the score grows, and +inf is in the top bucket. */
  lemma TorinoMonotone(s: Ext, t: Ext)
    requires s.Fin? && (t.PosInf? || (t.Fin? && s.x <= t.x))
    ensures TorinoBucket(s).Some? && TorinoBucket(t).Some?
    ensures TorinoBucket(s).value <= TorinoBucket(t).value
  {
    TorinoCountsEdges(s.x);
    if t.Fin? {
      TorinoCountsEdges(t.x);
      EdgesBelowMonotone(s.x, t.x, Edges());
    }
  }

  /** The bucket is one of 0..4 exactly when the score is not NaN or -inf. */
  lemma TorinoRange(t: Ext)
    ensures TorinoBucket(t).Some? <==> !t.NaN? && !t.NegInf?
    ensures TorinoBucket(t).Some? ==> 0 <= TorinoBucket(t).value <= 4
  {
  }

  // ---------------------------------------------------------------------------------------
  // preprocess_from_db

  /** A Float column of a row read into a frame: a number, or NaN for NULL. */
  function ColumnValue(row: Database.Row, column: string): Option<real> {
    if column in row && row[column].JNum? then Some(row[column].n) else None
  }

  /** `preprocess_from_db` on the rows the query returned, with the velocity and distance
      columns `_calculate_features` reads. Selecting a column the frame does not have raises
      KeyError; the frame has the table's columns. `finish` says whether clustering and saving
      succeed. Any exception gives None. */
  function PreprocessFromDb(rows: seq<Database.Row>, velocityColumn: string, distanceColumn: string,
                            log10: real -> real, finish: seq<Features> -> bool): Option<seq<Features>>
  {
    if rows == [] then None
    else if velocityColumn !in Database.Columns || distanceColumn !in Database.Columns then None
    else
      var features := FrameFeatures(rows, velocityColumn, distanceColumn, log10);
      if finish(features) then Some(features) else None
  }

  /** `_calculate_features` on the whole frame: the features of each row, in order. */
  function FrameFeatures(rows: seq<Database.Row>, velocityColumn: string, distanceColumn: string, log10: real -> real): seq<Features> {
    seq(|rows|, i requires 0 <= i < |rows| =>
      RowFeatures(ColumnValue(rows[i], "diameter_km"), ColumnValue(rows[i], velocityColumn),
                  ColumnValue(rows[i], distanceColumn), log10))
  }

  /** The step as written reads `next_approach_velocity` and `next_approach_distance_km`,
      columns the table does not have. */
  function PreprocessAsWritten(rows: seq<Database.Row>, log10: real -> real, finish: seq<Features> -> bool): Option<seq<Features>> {
    PreprocessFromDb(rows, "next_approach_velocity", "next_approach_distance_km", log10, finish)
  }

  /** The step reading the table's own close-approach columns. */
  function PreprocessCorrected(rows: seq<Database.Row>, log10: real -> real, finish: seq<Features> -> bool): Option<seq<Features>> {
    PreprocessFromDb(rows, "velocity_km_s", "miss_distance_km", log10, finish)
  }

  /** An empty query result gives None. */
  lemma EmptyResultIsNone(velocityColumn: string, distanceColumn: string, log10: real -> real, finish: seq<Features> -> bool)
    ensures PreprocessFromDb([], velocityColumn, distanceColumn, log10, finish) == None
  {
  }

  /** As written, every non-empty table gives None: the KeyError is caught by the handler. */
  lemma AsWrittenAlwaysNone(rows: seq<Database.Row>, log10: real -> real, finish: seq<Features> -> bool)
    ensures PreprocessAsWritten(rows, log10, finish) == None
  {
    assert "next_approach_velocity" !in Database.Columns;
  }

  /** Reading the table's columns, a non-empty table whose clustering and saving succeed gives
      one feature row per database row, its score computed from that row's diameter, velocity
      and miss distance. */
  lemma CorrectedScoresEveryRow(rows: seq<Database.Row>, log10: real -> real, finish: seq<Features> -> bool)
    requires rows != []
    ensures PreprocessCorrected(rows, log10, finish).Some? <==>
      finish(FrameFeatures(rows, "velocity_km_s", "miss_distance_km", log10))
    ensures var r := PreprocessCorrected(rows, log10, finish);
      r.Some? ==>
        && |r.value| == |rows|
        && forall i | 0 <= i < |rows| ::
             r.value[i].threat == ThreatScore(ColumnValue(rows[i], "diameter_km"),
               ColumnValue(rows[i], "velocity_km_s"), ColumnValue(rows[i], "miss_distance_km"))
  {
    assert "velocity_km_s" in Database.Columns && "miss_distance_km" in Database.Columns;
  }
}
