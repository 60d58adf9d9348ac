/** What a conversion adds to the graph, as pure functions of its input.

    A conversion walks its input and adds triples one at a time; when Python
    raises part-way, what was already added stays in the graph. A `Run` is
    the set of triples one call adds together with the exception it ends
    with, if any. The converter's methods are proved to add exactly
    `Run.added` and to fail exactly with `Run.error`. */
module Conversion {
  import opened Values
  import opened Decimal
  import opened Percent
  import opened Timestamps
  import opened Rdf

  datatype Run = Run(added: set<Triple>, error: Option<Error>)

  /** Triples already added, followed by the rest of a run. */
  function Extend(done: set<Triple>, run: Run): Run {
    Run(done + run.added, run.error)
  }

  /** The dispatch of `convert_to_rdf` on its topic string. */
  function ConvertRun(topic: string, data: Value, toFloat: Value -> Option<real>): (r: Run)
    ensures r.error == None ==> topic == "pv" || topic == "building"
    ensures topic != "pv" && topic != "building" ==> r == Run({}, Some(UnsupportedTopic(topic)))
  {
    if topic == "pv" then PvRun(data)
    else if topic == "building" then BuildingRun(data, toFloat)
    else Run({}, Some(UnsupportedTopic(topic)))
  }

  // ================================================================== pv

  /** `https:/w3id.org/resonance/pv/measurement/{i}`. */
  function PvSubject(i: nat): string {
    PV_MEASUREMENT + NatToString(i)
  }

  /** The six triples of the i-th (1-based) power measurement `m`, with the
      defaults of `m.get(...)`: no unit means "Watt", no commodity quantity
      means "", and a missing value or timestamp is Python's None. */
  function MeasurementTriples(i: nat, m: seq<(string, Value)>): (r: set<Triple>)
    ensures Subjects(r) == {Iri(PvSubject(i))}
  {
    var s := Iri(PvSubject(i));
    {
      Triple(s, Iri(RDF_TYPE), Iri(POWER_MEASUREMENT)),
      Triple(s, Iri(IS_ABOUT), Iri(PHOTOVOLTAIC)),
      Triple(s, Iri(POWER_VALUE), TypedLiteral(Get(m, "value").GetOr(Null), XSD_FLOAT)),
      Triple(s, Iri(IS_MEASURED_IN), PlainLiteral(Get(m, "unit").GetOr(Str("Watt")))),
      Triple(s, Iri(COMMODITY_QUANTITY), PlainLiteral(Get(m, "commodityQuantity").GetOr(Str("")))),
      Triple(s, Iri(PV_TIMESTAMP), TypedLiteral(Get(m, "timestamp").GetOr(Null), XSD_DATETIME))
    }
  }

  /** `data.get("powerMeasurements", [])`, iterated. */
  function PvMeasurements(data: Value): Result<seq<Value>, Error> {
    if !data.Obj? then Failure(NotAMapping)
    else Iterate(Get(data.fields, "powerMeasurements").GetOr(Arr([])))
  }

  /** How many measurements at the front are dicts: the loop handles those
      and raises at the first one that is not. */
  function LeadingMappings(items: seq<Value>): (k: nat)
    ensures k <= |items|
    ensures forall j :: 0 <= j < k ==> items[j].Obj?
    ensures k < |items| ==> !items[k].Obj?
  {
    if items == [] || !items[0].Obj? then 0 else 1 + LeadingMappings(items[1..])
  }

  /** The triples of the first n measurements. */
  function PvAdded(items: seq<Value>, n: nat): set<Triple>
    requires n <= |items| && forall j :: 0 <= j < n ==> items[j].Obj?
  {
    if n == 0 then {} else PvAdded(items, n - 1) + MeasurementTriples(n, items[n - 1].fields)
  }

  /** `_process_pv_production`: a non-dict input raises at once; otherwise the
      only exceptions are a non-iterable measurement list and a measurement
      that is not a dict. */
  function PvRun(data: Value): (r: Run)
    ensures !data.Obj? ==> r == Run({}, Some(NotAMapping))
    ensures r.error.Some? ==> r.error.value == NotAMapping || r.error.value == NotIterable
  {
    match PvMeasurements(data)
    case Failure(e) => Run({}, Some(e))
    case Success(items) =>
      var k := LeadingMappings(items);
      Run(PvAdded(items, k), if k < |items| then Some(NotAMapping) else None)
  }

  /** The subjects `.../measurement/1` to `.../measurement/n`. */
  function PvSubjectSet(n: nat): set<Term> {
    set i | 1 <= i <= n :: Iri(PvSubject(i))
  }

  lemma PvSubjectInjective(i: nat, j: nat)
    requires PvSubject(i) == PvSubject(j)
    ensures i == j
  {
    var n := |PV_MEASUREMENT|;
    assert NatToString(i) == PvSubject(i)[n..];
    assert NatToString(j) == PvSubject(j)[n..];
    NatToStringInjective(i, j);
  }

  /** Measurement j (0-based) of the first n contributes its six triples. */
  lemma {:induction false} PvAddedContains(items: seq<Value>, n: nat, j: nat)
    requires n <= |items| && forall k :: 0 <= k < n ==> items[k].Obj?
    requires j < n
    ensures MeasurementTriples(j + 1, items[j].fields) <= PvAdded(items, n)
  {
    assert PvAdded(items, n) == PvAdded(items, n - 1) + MeasurementTriples(n, items[n - 1].fields);
    if j < n - 1 {
      PvAddedContains(items, n - 1, j);
    }
  }

  /** The first n measurements speak about exactly the subjects 1..n. */
  lemma {:induction false} PvAddedSubjects(items: seq<Value>, n: nat)
    requires n <= |items| && forall j :: 0 <= j < n ==> items[j].Obj?
    ensures Subjects(PvAdded(items, n)) == PvSubjectSet(n)
  {
    if n > 0 {
      var before, m := PvAdded(items, n - 1), MeasurementTriples(n, items[n - 1].fields);
      PvAddedSubjects(items, n - 1);
      SubjectsUnion(before, m);
      PvSubjectSetStep(n);
      calc {
        Subjects(PvAdded(items, n));
        Subjects(before + m);
        Subjects(before) + Subjects(m);
        PvSubjectSet(n - 1) + {Iri(PvSubject(n))};
        PvSubjectSet(n);
      }
    }
  }

  lemma PvSubjectSetStep(n: nat)
    requires n > 0
    ensures PvSubjectSet(n) == PvSubjectSet(n - 1) + {Iri(PvSubject(n))}
  {
  }

  /** There are exactly n such subjects: the indices never collide. */
  lemma {:induction false} PvSubjectSetSize(n: nat)
    ensures |PvSubjectSet(n)| == n
  {
    if n > 0 {
      PvSubjectSetSize(n - 1);
      PvSubjectSetStep(n);
      if Iri(PvSubject(n)) in PvSubjectSet(n - 1) {
        var i :| 1 <= i <= n - 1 && Iri(PvSubject(i)) == Iri(PvSubject(n));
        PvSubjectInjective(i, n);
      }
    }
  }

  /** With N dict measurements the conversion succeeds, speaks about exactly
      N distinct subjects, the indices 1 to N, and types every one of them as
      a PowerMeasurement about Photovoltaic. */
  lemma PvRunAllMeasurements(data: Value, items: seq<Value>)
    requires PvMeasurements(data) == Success(items)
    requires forall j :: 0 <= j < |items| ==> items[j].Obj?
    ensures PvRun(data).error == None
    ensures Subjects(PvRun(data).added) == PvSubjectSet(|items|)
    ensures |Subjects(PvRun(data).added)| == |items|
    ensures forall i :: 1 <= i <= |items| ==>
              && Triple(Iri(PvSubject(i)), Iri(RDF_TYPE), Iri(POWER_MEASUREMENT)) in PvRun(data).added
              && Triple(Iri(PvSubject(i)), Iri(IS_ABOUT), Iri(PHOTOVOLTAIC)) in PvRun(data).added
  {
    var n := |items|;
    assert LeadingMappings(items) == n;
    PvAddedSubjects(items, n);
    PvSubjectSetSize(n);
    forall i | 1 <= i <= n
      ensures Triple(Iri(PvSubject(i)), Iri(RDF_TYPE), Iri(POWER_MEASUREMENT)) in PvRun(data).added
      ensures Triple(Iri(PvSubject(i)), Iri(IS_ABOUT), Iri(PHOTOVOLTAIC)) in PvRun(data).added
    {
      PvAddedContains(items, n, i - 1);
    }
  }

  /** What a measurement without a unit, a commodity quantity or both gets,
      and the timestamp stored as given, with no reformatting. */
  lemma PvMeasurementDefaults(data: Value, items: seq<Value>, j: nat)
    requires PvMeasurements(data) == Success(items)
    requires j < LeadingMappings(items)
    ensures var m := items[j].fields;
            var s := Iri(PvSubject(j + 1));
            && (Get(m, "unit").None? ==>
                  Triple(s, Iri(IS_MEASURED_IN), PlainLiteral(Str("Watt"))) in PvRun(data).added)
            && (Get(m, "commodityQuantity").None? ==>
                  Triple(s, Iri(COMMODITY_QUANTITY), PlainLiteral(Str(""))) in PvRun(data).added)
            && (Get(m, "timestamp").Some? ==>
                  Triple(s, Iri(PV_TIMESTAMP), TypedLiteral(Get(m, "timestamp").value, XSD_DATETIME))
                    in PvRun(data).added)
  {
    PvAddedContains(items, LeadingMappings(items), j);
  }

  /** A dict without "powerMeasurements" converts to nothing, successfully. */
  lemma PvMissingKey(fields: seq<(string, Value)>)
    requires Get(fields, "powerMeasurements").None?
    ensures PvRun(Obj(fields)) == Run({}, None)
  {
    assert PvMeasurements(Obj(fields)) == Success([]);
  }

  /** A measurement that is not a dict raises, after the triples of the
      measurements before it. */
  lemma PvStopsAtNonMapping(data: Value, items: seq<Value>, k: nat)
    requires PvMeasurements(data) == Success(items)
    requires k < |items| && !items[k].Obj?
    requires forall j :: 0 <= j < k ==> items[j].Obj?
    ensures PvRun(data) == Run(PvAdded(items, k), Some(NotAMapping))
  {
    assert LeadingMappings(items) == k;
  }

  // ============================================================ building

  /** `https://w3id.org/resonance/building/measurement/{quote(key)}/{i}`. */
  function BuildingSubject(key: string, i: nat): string {
    BUILDING_MEASUREMENT + (Quote(key) + "/" + NatToString(i))
  }

  /** The semantic types a building column can have. */
  datatype BuildingType =
    | EnergyConsumption
    | HeatConsumption
    | OutdoorTemperature
    | IndoorTemperature
    | IndoorTemperatureMean
    | UnknownMeasurement

  function BuildingTypeIri(t: BuildingType): string {
    match t
    case EnergyConsumption => ENERGY_CONSUMPTION
    case HeatConsumption => HEAT_CONSUMPTION
    case OutdoorTemperature => OUTDOOR_TEMPERATURE
    case IndoorTemperature => INDOOR_TEMPERATURE
    case IndoorTemperatureMean => INDOOR_TEMPERATURE_MEAN
    case UnknownMeasurement => UNKNOWN_MEASUREMENT
  }

  /** The column names the converter knows, and their types. */
  const BUILDING_TYPES: map<string, BuildingType> := map[
    "Electricity_consumption" := EnergyConsumption,
    "District_heating_consumption" := HeatConsumption,
    "Outdoor_temperature" := OutdoorTemperature,
    "Indoor_temperature_measurement_point_1" := IndoorTemperature,
    "Indoor_temperature_measurement_point_2" := IndoorTemperature,
    "Indoor_temperature_measurement_point_3" := IndoorTemperature,
    "Indoor_temperature_mean_value" := IndoorTemperatureMean
  ]

  /** `_get_building_property_type`: the type of a column; it never fails,
      and every name outside the table is an UnknownMeasurement. */
  function BuildingPropertyType(key: string): (t: BuildingType)
    ensures t == UnknownMeasurement <==> key !in BUILDING_TYPES
    ensures t == IndoorTemperature <==>
              key in {"Indoor_temperature_measurement_point_1",
                      "Indoor_temperature_measurement_point_2",
                      "Indoor_temperature_measurement_point_3"}
    ensures key == "Electricity_consumption" ==> t == EnergyConsumption
    ensures key == "District_heating_consumption" ==> t == HeatConsumption
    ensures key == "Outdoor_temperature" ==> t == OutdoorTemperature
    ensures key == "Indoor_temperature_mean_value" ==> t == IndoorTemperatureMean
  {
    if key in BUILDING_TYPES then BUILDING_TYPES[key] else UnknownMeasurement
  }

  function TypeTriple(key: string, i: nat): Triple {
    Triple(Iri(BuildingSubject(key, i)), Iri(RDF_TYPE), Iri(BuildingTypeIri(BuildingPropertyType(key))))
  }

  function ValueTriple(key: string, i: nat, x: real): Triple {
    Triple(Iri(BuildingSubject(key, i)), Iri(BUILDING_VALUE), TypedLiteral(Num(x), XSD_FLOAT))
  }

  function TimeTriple(key: string, i: nat, iso: string): Triple {
    Triple(Iri(BuildingSubject(key, i)), Iri(BUILDING_TIMESTAMP), TypedLiteral(Str(iso), XSD_DATETIME))
  }

  /** `datetime.strptime(row['timestamp'], "%d/%m/%Y %H:%M").isoformat()`. */
  function RowTimestamp(row: Value): (r: Result<string, Error>)
    ensures r.Success? ==> row.Obj? && Get(row.fields, "timestamp").Some?
                           && Get(row.fields, "timestamp").value.Str?
                           && ParseTimestamp(Get(row.fields, "timestamp").value.s).Success?
                           && r.value == IsoFormat(ParseTimestamp(Get(row.fields, "timestamp").value.s).value)
    ensures !row.Obj? ==> r == Failure(NotAMapping)
    ensures row.Obj? && Get(row.fields, "timestamp").None? ==> r == Failure(MissingTimestamp)
    ensures row.Obj? && Get(row.fields, "timestamp").Some? && !Get(row.fields, "timestamp").value.Str? ==>
              r == Failure(TimestampNotText)
    ensures row.Obj? && Get(row.fields, "timestamp").Some? && Get(row.fields, "timestamp").value.Str? ==>
              var p := ParseTimestamp(Get(row.fields, "timestamp").value.s);
              (r.Success? <==> p.Success?) && (p.Failure? ==> r == Failure(p.error))
  {
    if !row.Obj? then Failure(NotAMapping)
    else match Get(row.fields, "timestamp")
      case None => Failure(MissingTimestamp)
      case Some(ts) =>
        if !ts.Str? then Failure(TimestampNotText)
        else match ParseTimestamp(ts.s)
          case Failure(e) => Failure(e)
          case Success(dt) => Success(IsoFormat(dt))
  }

  /** The inner loop over one row's columns (row i, 1-based): per column
      other than "timestamp", the type triple, then `float(value)`, then the
      value and timeStamp triples. */
  function ColumnsRun(i: nat, iso: string, cols: seq<(string, Value)>, toFloat: Value -> Option<real>): (r: Run)
    ensures r.error.Some? ==> r.error.value.NotANumber? && toFloat(r.error.value.raw).None?
  {
    if cols == [] then Run({}, None)
    else
      var key := cols[0].0;
      if key == "timestamp" then ColumnsRun(i, iso, cols[1..], toFloat)
      else match toFloat(cols[0].1)
        case None => Run({TypeTriple(key, i)}, Some(NotANumber(cols[0].1)))
        case Some(x) =>
          Extend({TypeTriple(key, i), ValueTriple(key, i, x), TimeTriple(key, i, iso)},
                 ColumnsRun(i, iso, cols[1..], toFloat))
  }

  /** A row's columns go through exactly when `float` accepts the value of
      every column other than "timestamp". */
  lemma {:induction false} ColumnsRunOk(i: nat, iso: string, cols: seq<(string, Value)>, toFloat: Value -> Option<real>)
    ensures ColumnsRun(i, iso, cols, toFloat).error == None
            <==> forall k :: 0 <= k < |cols| && cols[k].0 != "timestamp" ==> toFloat(cols[k].1).Some?
  {
    if cols != [] {
      ColumnsRunOk(i, iso, cols[1..], toFloat);
      assert forall k :: 1 <= k < |cols| ==> cols[k] == cols[1..][k - 1];
    }
  }

  /** One row: its timestamp first (nothing is added if that raises), then its columns. */
  function RowRun(i: nat, row: Value, toFloat: Value -> Option<real>): Run {
    match RowTimestamp(row)
    case Failure(e) => Run({}, Some(e))
    case Success(iso) => ColumnsRun(i, iso, row.fields, toFloat)
  }

  /** The runs of the rows, row i + 1 (1-based) at index i. */
  function RowRuns(rows: seq<Value>, toFloat: Value -> Option<real>): seq<Run> {
    seq(|rows|, i requires 0 <= i < |rows| => RowRun(i + 1, rows[i], toFloat))
  }

  lemma RowRunsPrefix(rows: seq<Value>, toFloat: Value -> Option<real>, m: nat)
    requires m <= |rows|
    ensures RowRuns(rows, toFloat)[..m] == RowRuns(rows[..m], toFloat)
  {
  }

  /** Runs one after another: the first that raises ends the whole. */
  function Chain(runs: seq<Run>): Run {
    if runs == [] then Run({}, None)
    else if runs[0].error.Some? then runs[0]
    else Extend(runs[0].added, Chain(runs[1..]))
  }

  /** `_process_building_data`: anything but a list is ignored. */
  function BuildingRun(data: Value, toFloat: Value -> Option<real>): (r: Run)
    ensures !data.Arr? ==> r == Run({}, None)
    ensures r.error.Some? ==> IsRowError(r.error.value)
  {
    if data.Arr? then
      RowErrors(data.items, toFloat);
      Chain(RowRuns(data.items, toFloat))
    else Run({}, None)
  }

  /** What a building row can raise: a row that is not a dict, a missing or
      non-text timestamp, a timestamp strptime refuses, or a value `float`
      refuses. */
  predicate IsRowError(e: Error) {
    e.NotAMapping? || e.MissingTimestamp? || e.TimestampNotText?
    || e.TimestampMismatch? || e.DateOutOfRange? || e.NotANumber?
  }

  /** A chain raises only what one of its runs raises. */
  lemma {:induction false} ChainRowError(runs: seq<Run>)
    requires forall j :: 0 <= j < |runs| && runs[j].error.Some? ==> IsRowError(runs[j].error.value)
    ensures Chain(runs).error.Some? ==> exists j :: 0 <= j < |runs| && Chain(runs).error == runs[j].error
    ensures Chain(runs).error.Some? ==> IsRowError(Chain(runs).error.value)
  {
    if runs != [] && runs[0].error.None? {
      assert forall j :: 0 <= j < |runs[1..]| ==> runs[1..][j] == runs[j + 1];
      ChainRowError(runs[1..]);
      if Chain(runs).error.Some? {
        var j :| 0 <= j < |runs[1..]| && Chain(runs[1..]).error == runs[1..][j].error;
        assert Chain(runs).error == runs[j + 1].error;
      }
    }
  }

  lemma RowErrors(rows: seq<Value>, toFloat: Value -> Option<real>)
    ensures var c := Chain(RowRuns(rows, toFloat)); c.error.Some? ==> IsRowError(c.error.value)
  {
    var runs := RowRuns(rows, toFloat);
    forall j | 0 <= j < |runs| && runs[j].error.Some?
      ensures IsRowError(runs[j].error.value)
    {
      assert runs[j] == RowRun(j + 1, rows[j], toFloat);
    }
    ChainRowError(runs);
  }

  /** Running runs[..j] without error and then the rest is running them all. */
  lemma {:induction false} ChainSplit(runs: seq<Run>, j: nat)
    requires j <= |runs|
    requires Chain(runs[..j]).error == None
    ensures Chain(runs) == Extend(Chain(runs[..j]).added, Chain(runs[j..]))
  {
    if j == 0 {
      assert runs[j..] == runs;
    } else {
      assert runs[..j][0] == runs[0] && runs[..j][1..] == runs[1..][..j - 1];
      ChainSplit(runs[1..], j - 1);
      assert runs[1..][j - 1..] == runs[j..];
    }
  }

  /** A chain that raises nowhere ran every one of its runs to the end. */
  lemma {:induction false} ChainMember(runs: seq<Run>, j: nat)
    requires Chain(runs).error == None
    requires j < |runs|
    ensures runs[j].error == None && runs[j].added <= Chain(runs).added
  {
    if j > 0 {
      ChainMember(runs[1..], j - 1);
    }
  }

  /** A chain goes through exactly when every one of its runs does. */
  lemma {:induction false} ChainOk(runs: seq<Run>)
    ensures Chain(runs).error == None <==> forall j :: 0 <= j < |runs| ==> runs[j].error == None
  {
    if runs != [] {
      ChainOk(runs[1..]);
      if runs[0].error == None {
        assert forall j :: 1 <= j < |runs| ==> runs[j] == runs[1..][j - 1];
      }
    }
  }

  /** The first i + 1 runs are the first i, then run i. */
  lemma ChainSnoc(runs: seq<Run>, i: nat)
    requires i < |runs|
    requires Chain(runs[..i]).error == None
    ensures Chain(runs[..i + 1]) == Extend(Chain(runs[..i]).added, runs[i])
  {
    var front := runs[..i + 1];
    assert front[..i] == runs[..i];
    ChainSplit(front, i);
    assert front[i..] == [runs[i]];
    assert Chain([runs[i]]) == runs[i] by {
      assert [runs[i]][1..] == [];
    }
  }

  /** When runs[..j] go through and runs[j] raises, the chain ends there. */
  lemma ChainStops(runs: seq<Run>, j: nat)
    requires j < |runs|
    requires Chain(runs[..j]).error == None && runs[j].error.Some?
    ensures Chain(runs) == Extend(Chain(runs[..j]).added, runs[j])
  {
    ChainSplit(runs, j);
    assert runs[j..][0] == runs[j];
  }

  /** A chain adds nothing its runs do not add. */
  lemma {:induction false} ChainAdded(runs: seq<Run>)
    ensures forall t :: t in Chain(runs).added ==> exists i :: 0 <= i < |runs| && t in runs[i].added
  {
    if runs != [] && runs[0].error.None? {
      ChainAdded(runs[1..]);
      assert Chain(runs).added == runs[0].added + Chain(runs[1..]).added;
      forall t | t in Chain(runs).added
        ensures exists i :: 0 <= i < |runs| && t in runs[i].added
      {
        if t !in runs[0].added {
          var i :| 0 <= i < |runs[1..]| && t in runs[1..][i].added;
          assert t in runs[i + 1].added;
        }
      }
    }
  }

  /** The position of the last '/' in s, or -1. */
  function LastSlash(s: string): (p: int)
    ensures -1 <= p < |s|
    ensures 0 <= p ==> s[p] == '/'
    ensures forall k :: p < k < |s| ==> s[k] != '/'
  {
    if s == [] then -1
    else if s[|s| - 1] == '/' then |s| - 1
    else LastSlash(s[..|s| - 1])
  }

  lemma {:induction false} LastSlashBeforeDigits(x: string, d: string)
    requires AllDigits(d)
    ensures LastSlash(x + "/" + d) == |x|
  {
    var s := x + "/" + d;
    if d != [] {
      assert s[..|s| - 1] == x + "/" + d[..|d| - 1];
      LastSlashBeforeDigits(x, d[..|d| - 1]);
    }
  }

  /** A '/' followed by digits can be split off uniquely. */
  lemma SlashSplit(x: string, d: string, y: string, e: string)
    requires AllDigits(d) && AllDigits(e)
    requires x + "/" + d == y + "/" + e
    ensures x == y && d == e
  {
    var a, b := x + "/" + d, y + "/" + e;
    LastSlashBeforeDigits(x, d);
    LastSlashBeforeDigits(y, e);
    assert x == a[..|x|] && y == b[..|y|];
    assert d == a[|x| + 1..] && e == b[|y| + 1..];
  }

  lemma CommonPrefix(p: string, a: string, b: string)
    requires p + a == p + b
    ensures a == b
  {
    assert a == (p + a)[|p|..] && b == (p + b)[|p|..];
  }

  /** Distinct (column, row) pairs get distinct subjects. */
  lemma BuildingSubjectInjective(k1: string, i1: nat, k2: string, i2: nat)
    requires BuildingSubject(k1, i1) == BuildingSubject(k2, i2)
    ensures k1 == k2 && i1 == i2
  {
    CommonPrefix(BUILDING_MEASUREMENT, Quote(k1) + "/" + NatToString(i1), Quote(k2) + "/" + NatToString(i2));
    SlashSplit(Quote(k1), NatToString(i1), Quote(k2), NatToString(i2));
    QuoteInjective(k1, k2);
    NatToStringInjective(i1, i2);
  }

  /** Every triple of row i speaks about one of that row's columns other
      than "timestamp". */
  lemma {:induction false} ColumnsRunSubjects(i: nat, iso: string, cols: seq<(string, Value)>, toFloat: Value -> Option<real>)
    ensures forall t :: t in ColumnsRun(i, iso, cols, toFloat).added ==>
              exists c :: c in cols && c.0 != "timestamp" && t.subj == Iri(BuildingSubject(c.0, i))
  {
    if cols != [] {
      ColumnsRunSubjects(i, iso, cols[1..], toFloat);
      assert cols[0] in cols;
      forall c | c in cols[1..] ensures c in cols { }
    }
  }

  /** Triple t speaks about a column of row (number i) other than
      "timestamp". */
  predicate AboutColumnOf(t: Triple, row: Value, i: nat) {
    row.Obj? && exists c :: c in row.fields && c.0 != "timestamp" && t.subj == Iri(BuildingSubject(c.0, i))
  }

  /** A triple about a column of row i other than "timestamp" is about
      neither the "timestamp" column nor any other row. */
  lemma AboutColumnSubject(t: Triple, row: Value, i: nat, k: string, n: nat)
    requires AboutColumnOf(t, row, i)
    requires k == "timestamp" || n != i
    ensures t.subj != Iri(BuildingSubject(k, n))
  {
    var c :| c in row.fields && c.0 != "timestamp" && t.subj == Iri(BuildingSubject(c.0, i));
    if t.subj == Iri(BuildingSubject(k, n)) {
      BuildingSubjectInjective(c.0, i, k, n);
    }
  }

  /** Every triple of row i speaks about one of that row's own columns
      other than "timestamp". */
  lemma RowRunSubjects(i: nat, row: Value, toFloat: Value -> Option<real>)
    ensures forall t :: t in RowRun(i, row, toFloat).added ==> AboutColumnOf(t, row, i)
  {
    var ts := RowTimestamp(row);
    if ts.Success? {
      ColumnsRunSubjects(i, ts.value, row.fields, toFloat);
    }
  }

  /** Every triple of a building conversion speaks about a column other
      than "timestamp" of one of the rows: row rows[j] is numbered j + 1. */
  lemma BuildingRunSubjects(rows: seq<Value>, toFloat: Value -> Option<real>)
    ensures forall t :: t in BuildingRun(Arr(rows), toFloat).added ==>
              exists j :: 0 <= j < |rows| && AboutColumnOf(t, rows[j], j + 1)
  {
    var runs := RowRuns(rows, toFloat);
    assert BuildingRun(Arr(rows), toFloat) == Chain(runs);
    ChainAdded(runs);
    forall t | t in Chain(runs).added
      ensures exists j :: 0 <= j < |rows| && AboutColumnOf(t, rows[j], j + 1)
    {
      var j :| 0 <= j < |runs| && t in runs[j].added;
      RowRunsSubjects(rows, toFloat, j);
    }
  }

  /** Every triple of the run of rows[j] speaks about a column of that row,
      under number j + 1. */
  lemma RowRunsSubjects(rows: seq<Value>, toFloat: Value -> Option<real>, j: nat)
    requires j < |rows|
    ensures forall t :: t in RowRuns(rows, toFloat)[j].added ==> AboutColumnOf(t, rows[j], j + 1)
  {
    assert RowRuns(rows, toFloat)[j] == RowRun(j + 1, rows[j], toFloat);
    RowRunSubjects(j + 1, rows[j], toFloat);
  }

  /** The "timestamp" column never becomes a subject, whatever the input. */
  lemma TimestampNeverSubject(data: Value, toFloat: Value -> Option<real>, i: nat)
    ensures Iri(BuildingSubject("timestamp", i)) !in Subjects(BuildingRun(data, toFloat).added)
  {
    if data.Arr? && Iri(BuildingSubject("timestamp", i)) in Subjects(BuildingRun(data, toFloat).added) {
      BuildingRunSubjects(data.items, toFloat);
      var t :| t in BuildingRun(data, toFloat).added && t.subj == Iri(BuildingSubject("timestamp", i));
      var j :| 0 <= j < |data.items| && AboutColumnOf(t, data.items[j], j + 1);
      AboutColumnSubject(t, data.items[j], j + 1, "timestamp", i);
      assert false;
    }
  }

  /** A row whose columns all convert: every column other than "timestamp"
      got its type, its number and the row's timestamp. */
  lemma {:induction false} ColumnsRunComplete(i: nat, iso: string, cols: seq<(string, Value)>, toFloat: Value -> Option<real>)
    requires ColumnsRun(i, iso, cols, toFloat).error == None
    ensures forall c :: c in cols && c.0 != "timestamp" ==>
              && toFloat(c.1).Some?
              && TypeTriple(c.0, i) in ColumnsRun(i, iso, cols, toFloat).added
              && ValueTriple(c.0, i, toFloat(c.1).value) in ColumnsRun(i, iso, cols, toFloat).added
              && TimeTriple(c.0, i, iso) in ColumnsRun(i, iso, cols, toFloat).added
  {
    if cols != [] {
      ColumnsRunComplete(i, iso, cols[1..], toFloat);
      forall c | c in cols ensures c == cols[0] || c in cols[1..] {
        var k :| 0 <= k < |cols| && cols[k] == c;
        if k > 0 { assert cols[1..][k - 1] == c; }
      }
    }
  }

  /** Row i's columns add nothing but, per column other than "timestamp",
      its type triple and, when `float` accepts its value, its value triple
      and its timeStamp triple carrying the row's timestamp. */
  lemma {:induction false} ColumnsRunExact(i: nat, iso: string, cols: seq<(string, Value)>, toFloat: Value -> Option<real>)
    ensures forall t :: t in ColumnsRun(i, iso, cols, toFloat).added ==>
              exists c :: c in cols && c.0 != "timestamp" && ColumnTriple(t, c, i, iso, toFloat)
  {
    if cols != [] {
      ColumnsRunExact(i, iso, cols[1..], toFloat);
      forall c | c in cols[1..] ensures c in cols { }
      assert cols[0] in cols;
    }
  }

  /** t is one of the triples column c of row i adds. */
  predicate ColumnTriple(t: Triple, c: (string, Value), i: nat, iso: string, toFloat: Value -> Option<real>) {
    || t == TypeTriple(c.0, i)
    || (toFloat(c.1).Some? && (t == ValueTriple(c.0, i, toFloat(c.1).value) || t == TimeTriple(c.0, i, iso)))
  }

  /** Every timeStamp triple of row i carries that row's timestamp, parsed
      and written in ISO-8601 form. */
  lemma RowRunTimeStamp(i: nat, row: Value, toFloat: Value -> Option<real>)
    ensures forall t :: t in RowRun(i, row, toFloat).added && t.pred == Iri(BUILDING_TIMESTAMP) ==>
              RowTimestamp(row).Success? && t.obj == TypedLiteral(Str(RowTimestamp(row).value), XSD_DATETIME)
  {
    var ts := RowTimestamp(row);
    if ts.Success? {
      ColumnsRunExact(i, ts.value, row.fields, toFloat);
      TimeStampPredicateDistinct();
      forall t | t in RowRun(i, row, toFloat).added && t.pred == Iri(BUILDING_TIMESTAMP)
        ensures t.obj == TypedLiteral(Str(ts.value), XSD_DATETIME)
      {
        var c :| c in row.fields && c.0 != "timestamp" && ColumnTriple(t, c, i, ts.value, toFloat);
      }
    }
  }

  /** The timeStamp predicate is neither `rdf:type` nor the value predicate. */
  lemma TimeStampPredicateDistinct()
    ensures BUILDING_TIMESTAMP != RDF_TYPE && BUILDING_TIMESTAMP != BUILDING_VALUE
  {
    assert RDF_TYPE[7] != BUILDING_TIMESTAMP[7];
    assert BUILDING_VALUE[|SRI4BUILDING|] != BUILDING_TIMESTAMP[|SRI4BUILDING|];
  }

  /** In a building conversion, every timeStamp triple about a column of row
      j (0-based) carries row j's timestamp, whichever row raised. */
  lemma BuildingTimeStamps(rows: seq<Value>, toFloat: Value -> Option<real>, j: nat, k: string)
    requires j < |rows|
    ensures forall t :: && t in BuildingRun(Arr(rows), toFloat).added
                        && t.subj == Iri(BuildingSubject(k, j + 1))
                        && t.pred == Iri(BUILDING_TIMESTAMP) ==>
              RowTimestamp(rows[j]).Success?
              && t.obj == TypedLiteral(Str(RowTimestamp(rows[j]).value), XSD_DATETIME)
  {
    SubjectRow(rows, toFloat, j, k);
    RowRunsTimeStamp(rows, toFloat, j);
  }

  /** A triple of a building conversion about a column of row j (0-based)
      was added by the run of row j and no other. */
  lemma SubjectRow(rows: seq<Value>, toFloat: Value -> Option<real>, j: nat, k: string)
    requires j < |rows|
    ensures forall t :: t in BuildingRun(Arr(rows), toFloat).added && t.subj == Iri(BuildingSubject(k, j + 1)) ==>
              t in RowRuns(rows, toFloat)[j].added
  {
    var runs := RowRuns(rows, toFloat);
    ChainAdded(runs);
    forall t | t in Chain(runs).added && t.subj == Iri(BuildingSubject(k, j + 1))
      ensures t in runs[j].added
    {
      var m :| 0 <= m < |runs| && t in runs[m].added;
      if m != j {
        OtherRowSubject(rows, toFloat, m, k, j + 1);
      }
    }
  }

  /** The run of rows[m] says nothing about a row numbered other than m + 1. */
  lemma OtherRowSubject(rows: seq<Value>, toFloat: Value -> Option<real>, m: nat, k: string, n: nat)
    requires m < |rows| && n != m + 1
    ensures forall t :: t in RowRuns(rows, toFloat)[m].added ==> t.subj != Iri(BuildingSubject(k, n))
  {
    RowRunsSubjects(rows, toFloat, m);
    forall t | t in RowRuns(rows, toFloat)[m].added
      ensures t.subj != Iri(BuildingSubject(k, n))
    {
      AboutColumnSubject(t, rows[m], m + 1, k, n);
    }
  }

  /** Every timeStamp triple of the run of rows[j] carries that row's
      timestamp. */
  lemma RowRunsTimeStamp(rows: seq<Value>, toFloat: Value -> Option<real>, j: nat)
    requires j < |rows|
    ensures forall t :: t in RowRuns(rows, toFloat)[j].added && t.pred == Iri(BUILDING_TIMESTAMP) ==>
              RowTimestamp(rows[j]).Success? && t.obj == TypedLiteral(Str(RowTimestamp(rows[j]).value), XSD_DATETIME)
  {
    var row := rows[j];
    var run := RowRuns(rows, toFloat)[j];
    assert run == RowRun(j + 1, row, toFloat);
    RowRunTimeStamp(j + 1, row, toFloat);
  }

  /** A successful building conversion: for row j (0-based) and each of its
      columns other than "timestamp", the subject `.../{quote(key)}/{j + 1}`
      has the column's semantic type, the column's number, and the row's
      timestamp in ISO-8601 form. */
  lemma BuildingRowFacts(rows: seq<Value>, toFloat: Value -> Option<real>, j: nat, key: string, raw: Value)
    requires BuildingRun(Arr(rows), toFloat).error == None
    requires j < |rows| && rows[j].Obj? && (key, raw) in rows[j].fields && key != "timestamp"
    ensures RowTimestamp(rows[j]).Success? && toFloat(raw).Some?
    ensures var g := BuildingRun(Arr(rows), toFloat).added;
            var dt := ParseTimestamp(Get(rows[j].fields, "timestamp").value.s).value;
            && TypeTriple(key, j + 1) in g
            && ValueTriple(key, j + 1, toFloat(raw).value) in g
            && TimeTriple(key, j + 1, IsoFormat(dt)) in g
  {
    RowOfSuccess(rows, toFloat, j);
    ColumnsRunComplete(j + 1, RowTimestamp(rows[j]).value, rows[j].fields, toFloat);
  }

  /** In a building conversion that goes through, row j's timestamp parsed
      and its columns went through, all their triples kept. */
  lemma RowOfSuccess(rows: seq<Value>, toFloat: Value -> Option<real>, j: nat)
    requires BuildingRun(Arr(rows), toFloat).error == None && j < |rows|
    ensures RowTimestamp(rows[j]).Success?
    ensures var cr := ColumnsRun(j + 1, RowTimestamp(rows[j]).value, rows[j].fields, toFloat);
            cr.error == None && cr.added <= BuildingRun(Arr(rows), toFloat).added
  {
    var runs := RowRuns(rows, toFloat);
    ChainMember(runs, j);
    var r := RowRun(j + 1, rows[j], toFloat);
    assert runs[j] == r;
    var ts := RowTimestamp(rows[j]);
    assert ts.Success? && r == ColumnsRun(j + 1, ts.value, rows[j].fields, toFloat);
  }

  /** A column whose value is not a number raises after its own type triple,
      and after everything the columns before it added. */
  lemma {:induction false} ColumnsRunNotANumber(i: nat, iso: string, cols: seq<(string, Value)>, c: nat, toFloat: Value -> Option<real>)
    requires c < |cols| && cols[c].0 != "timestamp" && toFloat(cols[c].1).None?
    requires forall k :: 0 <= k < c && cols[k].0 != "timestamp" ==> toFloat(cols[k].1).Some?
    ensures ColumnsRun(i, iso, cols, toFloat).error == Some(NotANumber(cols[c].1))
    ensures TypeTriple(cols[c].0, i) in ColumnsRun(i, iso, cols, toFloat).added
    ensures ColumnsRun(i, iso, cols[..c], toFloat).added <= ColumnsRun(i, iso, cols, toFloat).added
    ensures ColumnsRun(i, iso, cols, toFloat).added
            == ColumnsRun(i, iso, cols[..c], toFloat).added + {TypeTriple(cols[c].0, i)}
  {
    if c > 0 {
      ColumnsRunNotANumber(i, iso, cols[1..], c - 1, toFloat);
      assert cols[..c][1..] == cols[1..][..c - 1];
      assert cols[..c][0] == cols[0];
    } else {
      assert cols[..0] == [];
    }
  }

  /** A building conversion goes through exactly when every row's timestamp
      parses and `float` accepts every value outside the "timestamp" column. */
  lemma BuildingSucceeds(rows: seq<Value>, toFloat: Value -> Option<real>)
    ensures BuildingRun(Arr(rows), toFloat).error == None
            <==> forall j :: 0 <= j < |rows| ==>
                   && RowTimestamp(rows[j]).Success?
                   && forall k :: 0 <= k < |rows[j].fields| && rows[j].fields[k].0 != "timestamp"
                        ==> toFloat(rows[j].fields[k].1).Some?
  {
    var runs := RowRuns(rows, toFloat);
    ChainOk(runs);
    forall j | 0 <= j < |rows|
      ensures runs[j].error == None
              <==> && RowTimestamp(rows[j]).Success?
                   && forall k :: 0 <= k < |rows[j].fields| && rows[j].fields[k].0 != "timestamp"
                        ==> toFloat(rows[j].fields[k].1).Some?
    {
      RowRunOk(rows, toFloat, j);
    }
  }

  /** The run of rows[j] goes through exactly when that row's timestamp
      parses and `float` accepts every value outside its "timestamp" column. */
  lemma RowRunOk(rows: seq<Value>, toFloat: Value -> Option<real>, j: nat)
    requires j < |rows|
    ensures RowRuns(rows, toFloat)[j].error == None
            <==> && RowTimestamp(rows[j]).Success?
                 && forall k :: 0 <= k < |rows[j].fields| && rows[j].fields[k].0 != "timestamp"
                      ==> toFloat(rows[j].fields[k].1).Some?
  {
    var row := rows[j];
    assert RowRuns(rows, toFloat)[j] == RowRun(j + 1, row, toFloat);
    var ts := RowTimestamp(row);
    if ts.Success? {
      ColumnsRunOk(j + 1, ts.value, row.fields, toFloat);
    }
  }

  /** A row (number n, 1-based) whose timestamp does not parse raises, and
      no triple of the conversion speaks about that row: only the triples of
      the rows before it are added. */
  lemma BadTimestampRow(rows: seq<Value>, toFloat: Value -> Option<real>, n: nat)
    requires 1 <= n <= |rows|
    requires Chain(RowRuns(rows, toFloat)[..n - 1]).error == None
    requires RowTimestamp(rows[n - 1]).Failure?
    ensures BuildingRun(Arr(rows), toFloat)
            == Run(Chain(RowRuns(rows, toFloat)[..n - 1]).added, Some(RowTimestamp(rows[n - 1]).error))
    ensures forall k :: Iri(BuildingSubject(k, n)) !in Subjects(BuildingRun(Arr(rows), toFloat).added)
  {
    var runs := RowRuns(rows, toFloat);
    assert runs[n - 1] == Run({}, Some(RowTimestamp(rows[n - 1]).error));
    ChainStops(runs, n - 1);
    RowRunsPrefix(rows, toFloat, n - 1);
    assert BuildingRun(Arr(rows), toFloat).added == BuildingRun(Arr(rows[..n - 1]), toFloat).added;
    forall k ensures Iri(BuildingSubject(k, n)) !in Subjects(BuildingRun(Arr(rows[..n - 1]), toFloat).added) {
      LaterRowNotSubject(rows[..n - 1], toFloat, k, n);
    }
  }

  /** No triple of a building conversion speaks about a row number past
      its last row. */
  lemma LaterRowNotSubject(rows: seq<Value>, toFloat: Value -> Option<real>, k: string, n: nat)
    requires |rows| < n
    ensures Iri(BuildingSubject(k, n)) !in Subjects(BuildingRun(Arr(rows), toFloat).added)
  {
    var added := BuildingRun(Arr(rows), toFloat).added;
    if Iri(BuildingSubject(k, n)) in Subjects(added) {
      BuildingRunSubjects(rows, toFloat);
      var t :| t in added && t.subj == Iri(BuildingSubject(k, n));
      var j :| 0 <= j < |rows| && AboutColumnOf(t, rows[j], j + 1);
      AboutColumnSubject(t, rows[j], j + 1, k, n);
      assert false;
    }
  }

}
