/** `DataUpdater.run_update`: fetch the catalogue, then fetch, validate and store every object
    in batches of twenty, counting the objects stored and isolating per-object failures. */
module Update {
  import opened Values
  import Validate
  import Database

  /** `self.batch_size`. */
  const BatchSize: nat := 20

  function Min(a: int, b: int): int {
    if a <= b then a else b
  }

  // ---------------------------------------------------------------------------------------
  // Batches

  /** The slices `xs[i:i + size]` for `i` in `range(0, len(xs), size)`. */
  function Batches<T>(xs: seq<T>, size: nat): seq<seq<T>>
    requires size > 0
    decreases |xs|
  {
    if xs == [] then []
    else if |xs| <= size then [xs]
    else [xs[..size]] + Batches(xs[size..], size)
  }

  function Concat<T>(xss: seq<seq<T>>): seq<T>
    decreases |xss|
  {
    if xss == [] then [] else xss[0] + Concat(xss[1..])
  }

  /** The batches cover the catalogue in order without overlap: their concatenation is the
      catalogue, and each holds between one and `size` objects. */
  lemma {:induction false} BatchesPartition<T>(xs: seq<T>, size: nat)
    requires size > 0
    ensures Concat(Batches(xs, size)) == xs
    ensures forall b | b in Batches(xs, size) :: 0 < |b| <= size
    decreases |xs|
  {
    if |xs| > size {
      BatchesPartition(xs[size..], size);
      assert xs[..size] + xs[size..] == xs;
      assert Batches(xs, size)[1..] == Batches(xs[size..], size);
    } else if xs != [] {
      assert Concat([xs]) == xs + Concat<T>([]);
    }
  }

  /** Batch `b` is the slice the loop takes when `i = b * size`. */
  lemma {:induction false} BatchAt<T>(xs: seq<T>, size: nat, b: nat)
    requires size > 0 && b * size < |xs|
    ensures b < |Batches(xs, size)|
    ensures Batches(xs, size)[b] == xs[b * size..Min(b * size + size, |xs|)]
    decreases b
  {
    if b > 0 {
      var off := (b - 1) * size;
      assert b * size == off + size;
      BatchAt(xs[size..], size, b - 1);
      assert xs[size..][off..Min(off + size, |xs| - size)] == xs[off + size..Min(off + size + size, |xs|)];
    }
  }

  // ---------------------------------------------------------------------------------------
  // One object

  /** The collaborators of `run_update`: `fetch_neo_complete`, which may raise;
      `validate_asteroid` on a dict; and the time at which the `k`-th object's upsert
      commits. */
  datatype Services = Services(
    completeRecord: Json -> Outcome<Json>,
    validate: Dict -> Option<Dict>,
    clock: nat -> Json)

  /** The services as the pipeline wires them: validation is `Validate.ValidateAsteroid`.
      This is only the wiring; what validation accepts and returns is stated by the lemmas
      about `Validate.ValidateAsteroid`. */
  function Wired(completeRecord: Json -> Outcome<Json>, tisserand: Validate.TisserandFn, clock: nat -> Json): (s: Services)
    ensures forall d :: s.validate(d) == Validate.ValidateAsteroid(d, tisserand)
  {
    Services(completeRecord, (d: Dict) => Validate.ValidateAsteroid(d, tisserand), clock)
  }

  /** Python truthiness of a decoded JSON value. */
  predicate Truthy(v: Json) {
    match v
    case JNull => false
    case JBool(b) => b
    case JNum(n) => n != 0.0
    case JStr(s) => s != []
    case JArr(items) => items != []
    case JObj(members) => members != []
  }

  /** `validate_asteroid(data)`: a dict is validated; for anything else, unpacking it raises
      and so does the error handler's `data.get('id')`. */
  function ValidateRecord(data: Json, s: Services): Outcome<Option<Dict>> {
    if data.JObj? then Returned(s.validate(data.members)) else Raised
  }

  /** The per-object `try` body: the new table and whether the object counts as a success. */
  function Attempt(rows: map<string, Database.Row>, neo: Json, k: nat, s: Services): Outcome<(map<string, Database.Row>, bool)> {
    var complete :- s.completeRecord(neo);
    if !Truthy(complete) then Returned((rows, false))
    else
      var validated :- ValidateRecord(complete, s);
      if validated.None? || validated.value == [] then Returned((rows, false))
      else
        var after :- Database.Upserted(rows, validated.value, s.clock(k));
        Returned((after, true))
  }

  /** One object with its handler: a raise in the body is logged and skipped, except that the
      handler's own `neo.get('id')` raises when the object is not a dict, and that escapes. */
  function ObjectStep(rows: map<string, Database.Row>, neo: Json, k: nat, s: Services): Outcome<(map<string, Database.Row>, bool)> {
    match Attempt(rows, neo, k, s)
    case Returned(r) => Returned(r)
    case Raised => if neo.JObj? then Returned((rows, false)) else Raised
  }

  /** The state of a run: the table, `success_count`, the objects handled, and whether an
      exception has escaped the per-object handler. */
  datatype Progress = Progress(rows: map<string, Database.Row>, success: nat, processed: nat, escaped: bool)

  /** The run after handling one more object, the `k`-th; after an escape nothing more runs. */
  function Advance(p: Progress, neo: Json, k: nat, s: Services): Progress {
    if p.escaped then p
    else
      match ObjectStep(p.rows, neo, k, s)
      case Raised => p.(escaped := true)
      case Returned((after, ok)) => Progress(after, p.success + (if ok then 1 else 0), p.processed + 1, false)
  }

  /** The first `k` objects of `neos`, handled in order starting from the table `rows0`; the
      `k`-th object commits at `s.clock(k)`. */
  function Processed(rows0: map<string, Database.Row>, neos: seq<Json>, k: nat, s: Services): Progress
    requires k <= |neos|
  {
    if k == 0 then Progress(rows0, 0, 0, false)
    else Advance(Processed(rows0, neos, k - 1, s), neos[k - 1], k - 1, s)
  }

  /** What `run_update` returns and the table it leaves. `catalog` is `fetch_all_neos()` (a
      list, None, or a raise); `pacingRaises` says whether the pause after each batch raises. */
  function RunUpdateSpec(rows0: map<string, Database.Row>, catalog: Outcome<Option<seq<Json>>>, s: Services, pacingRaises: bool): (bool, map<string, Database.Row>) {
    match catalog
    case Raised => (false, rows0)
    case Returned(None) => (false, rows0)
    case Returned(Some(neos)) =>
      if neos == [] then (false, rows0)
      else
        var reached := if pacingRaises then Min(BatchSize, |neos|) else |neos|;
        var p := Processed(rows0, neos, reached, s);
        (!p.escaped && !pacingRaises, p.rows)
  }

  // ---------------------------------------------------------------------------------------
  // The updater

  class DataUpdater {
    /** `self.fetcher.db`. */
    const db: Database.AsteroidDatabase
    const batchSize: nat := BatchSize

    constructor(db: Database.AsteroidDatabase)
      ensures this.db == db
    {
      this.db := db;
    }

    /** The per-object `try`/`except` of `run_update` for the `k`-th object of the catalogue,
        after the first `k`: whether an exception escaped the handler and whether the object
        was counted. */
    method HandleObject(neos: seq<Json>, k: nat, s: Services, ghost rows0: map<string, Database.Row>) returns (escaped: bool, counted: bool)
      requires k < |neos|
      requires db.Valid()
      requires var p := Processed(rows0, neos, k, s); !p.escaped && db.rows == p.rows
      modifies db
      ensures db.Valid()
      ensures var q := Processed(rows0, neos, k + 1, s);
        && escaped == q.escaped && db.rows == q.rows
        && (!escaped ==> q.success == Processed(rows0, neos, k, s).success + (if counted then 1 else 0))
    {
      var neo := neos[k];
      var bodyRaised := false;
      counted := false;
      var complete := s.completeRecord(neo);
      if complete.Raised? {
        bodyRaised := true;
      } else if Truthy(complete.value) {
        var validated := ValidateRecord(complete.value, s);
        if validated.Raised? {
          bodyRaised := true;
        } else if validated.value.Some? && validated.value.value != [] {
          var upsertRaised := db.UpsertAsteroid(validated.value.value, s.clock(k));
          if upsertRaised {
            bodyRaised := true;
          } else {
            counted := true;
          }
        }
      }
      escaped := bodyRaised && !neo.JObj?;
    }

    /** The inner loop of `run_update`: the objects of the batch `neos[start:end]`, starting
        from the state after the first `start` objects. It reports whether an exception escaped
        and the new `success_count`. */
    method ProcessBatch(neos: seq<Json>, start: nat, end: nat, s: Services, ghost rows0: map<string, Database.Row>, successBefore: nat)
      returns (escaped: bool, successCount: nat)
      requires start <= end <= |neos|
      requires db.Valid()
      requires var p := Processed(rows0, neos, start, s);
        !p.escaped && db.rows == p.rows && successBefore == p.success
      modifies db
      ensures db.Valid()
      ensures var p := Processed(rows0, neos, end, s);
        && escaped == p.escaped && db.rows == p.rows
        && (!escaped ==> successCount == p.success)
    {
      var batch := neos[start..end];
      successCount := successBefore;
      var j := 0;
      assert start + j == start;
      while j < |batch|
        invariant 0 <= j <= |batch|
        invariant db.Valid()
        invariant var p := Processed(rows0, neos, start + j, s);
          !p.escaped && db.rows == p.rows && successCount == p.success
      {
        var k := start + j;
        var objectEscaped, counted := HandleObject(neos, k, s, rows0);
        if objectEscaped {
          EscapeIsFinal(rows0, neos, k + 1, end, s);
          return true, successCount;
        }
        if counted {
          successCount := successCount + 1;
        }
        j := j + 1;
        assert start + j == k + 1;
      }
      return false, successCount;
    }

    /** `run_update`. */
    method RunUpdate(catalog: Outcome<Option<seq<Json>>>, s: Services, pacingRaises: bool) returns (ok: bool)
      requires db.Valid()
      modifies db
      ensures db.Valid()
      ensures (ok, db.rows) == RunUpdateSpec(old(db.rows), catalog, s, pacingRaises)
    {
      if catalog.Raised? || catalog.value.None? || catalog.value.value == [] {
        return false;
      }
      var neos := catalog.value.value;
      ghost var rows0 := db.rows;
      var successCount := 0;
      var i := 0;
      ghost var b := 0;
      while i < |neos|
        invariant 0 <= i && i == b * BatchSize
        invariant !pacingRaises || i == 0
        invariant db.Valid()
        invariant var p := Processed(rows0, neos, Min(i, |neos|), s);
          !p.escaped && db.rows == p.rows && successCount == p.success
      {
        var end := Min(i + batchSize, |neos|);
        // The objects of this round are batch number `b` of `Batches(neos, BatchSize)`.
        BatchAt(neos, BatchSize, b);
        assert neos[i..end] == Batches(neos, BatchSize)[b];
        var escaped;
        escaped, successCount := ProcessBatch(neos, i, end, s, rows0, successCount);
        if escaped {
          if !pacingRaises {
            EscapeIsFinal(rows0, neos, end, |neos|, s);
          }
          return false;
        }
        if pacingRaises {
          return false;
        }
        i := i + batchSize;
        b := b + 1;
      }
      return true;
    }
  }

  // ---------------------------------------------------------------------------------------
  // Properties

  /** Once an exception escapes, later objects change nothing. */
  lemma {:induction false} EscapeIsFinal(rows0: map<string, Database.Row>, neos: seq<Json>, k: nat, m: nat, s: Services)
    requires k <= m <= |neos| && Processed(rows0, neos, k, s).escaped
    ensures Processed(rows0, neos, m, s) == Processed(rows0, neos, k, s)
    decreases m - k
  {
    if k < m {
      EscapeIsFinal(rows0, neos, k, m - 1, s);
    }
  }

  /** `0 <= success_count <= processed <= k` after `k` objects, and a run that nothing escaped
      has handled every one of them. */
  lemma {:induction false} ProgressBounds(rows0: map<string, Database.Row>, neos: seq<Json>, k: nat, s: Services)
    requires k <= |neos|
    ensures var p := Processed(rows0, neos, k, s);
      && p.success <= p.processed <= k
      && (!p.escaped ==> p.processed == k)
  {
    if k > 0 {
      ProgressBounds(rows0, neos, k - 1, s);
    }
  }

  /** An object counts exactly when `fetch_neo_complete` returns a truthy dict, validation
      returns a non-empty dict, and upserting THAT validated dict does not raise; the table is
      then the upsert's result. */
  lemma ObjectStepSucceeds(rows: map<string, Database.Row>, neo: Json, k: nat, s: Services, after: map<string, Database.Row>)
    ensures ObjectStep(rows, neo, k, s) == Returned((after, true)) <==>
      && s.completeRecord(neo).Returned?
      && var complete := s.completeRecord(neo).value;
      && Truthy(complete) && complete.JObj?
      && var validated := s.validate(complete.members);
      && validated.Some? && validated.value != []
      && Database.Upserted(rows, validated.value, s.clock(k)) == Returned(after)
  {
  }

  /** A failure on one dict-shaped object is swallowed: the run goes on with the table
      unchanged and the object not counted. */
  lemma FailureIsolated(rows: map<string, Database.Row>, neo: Json, k: nat, s: Services)
    requires neo.JObj?
    ensures ObjectStep(rows, neo, k, s).Returned?
    ensures ObjectStep(rows, neo, k, s).value.1 == false ==> ObjectStep(rows, neo, k, s).value.0 == rows
  {
  }

  /** A catalogue call that raises, or returns None or an empty list, fails the run before
      any object is handled. */
  lemma EmptyCatalogFails(rows0: map<string, Database.Row>, s: Services, pacingRaises: bool)
    ensures RunUpdateSpec(rows0, Raised, s, pacingRaises) == (false, rows0)
    ensures RunUpdateSpec(rows0, Returned(None), s, pacingRaises) == (false, rows0)
    ensures RunUpdateSpec(rows0, Returned(Some([])), s, pacingRaises) == (false, rows0)
  {
  }

  /** With a pause that raises, as `time.sleep` on `datetime.time` does, every run with a
      non-empty catalogue fails after the first batch, and objects past the twentieth are never
      handled. */
  lemma RunAsWrittenStopsAfterFirstBatch(rows0: map<string, Database.Row>, neos: seq<Json>, s: Services)
    requires neos != []
    ensures var (ok, rows) := RunUpdateSpec(rows0, Returned(Some(neos)), s, true);
      var p := Processed(rows0, neos, Min(BatchSize, |neos|), s);
      && !ok && rows == p.rows && p.processed <= BatchSize
  {
    ProgressBounds(rows0, neos, Min(BatchSize, |neos|), s);
  }

  /** With a pause that returns, every object is handled: the run succeeds exactly when no
      exception escapes, which is always the case when every object is a dict. */
  lemma RunCorrectedCompletes(rows0: map<string, Database.Row>, neos: seq<Json>, s: Services)
    requires neos != []
    ensures var (ok, rows) := RunUpdateSpec(rows0, Returned(Some(neos)), s, false);
      var p := Processed(rows0, neos, |neos|, s);
      && (ok <==> !p.escaped) && rows == p.rows
      && (ok ==> p.processed == |neos|)
      && ((forall k | 0 <= k < |neos| :: neos[k].JObj?) ==> ok)
  {
    ProgressBounds(rows0, neos, |neos|, s);
    if forall k | 0 <= k < |neos| :: neos[k].JObj? {
      AllDictsNeverEscape(rows0, neos, |neos|, s);
    }
  }

  lemma {:induction false} AllDictsNeverEscape(rows0: map<string, Database.Row>, neos: seq<Json>, k: nat, s: Services)
    requires k <= |neos|
    requires forall i | 0 <= i < k :: neos[i].JObj?
    ensures !Processed(rows0, neos, k, s).escaped
  {
    if k > 0 {
      AllDictsNeverEscape(rows0, neos, k - 1, s);
      FailureIsolated(Processed(rows0, neos, k - 1, s).rows, neos[k - 1], k - 1, s);
    }
  }
}
