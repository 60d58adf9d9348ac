/** The converter object: one graph that every conversion adds to. The graph
    is created once, when the converter is, and is never cleared, so each
    serialization holds the triples of every earlier call as well. */
module Converter {
  import opened Values
  import opened Rdf
  import opened Conversion

  /** A conversion that goes through returns the Turtle text of the whole
      graph; one that raises returns the exception. */
  function Outcome(run: Run, text: string): (r: Result<string, Error>)
    ensures r.Success? <==> run.error.None?
    ensures r.Success? ==> r.value == text
    ensures r.Failure? ==> r.error == run.error.value
  {
    match run.error
    case Some(e) => Failure(e)
    case None => Success(text)
  }

  class RdfConverter {
    /** The triples added so far. */
    var graph: set<Triple>
    /** The prefixes bound on the graph. */
    const bindings: seq<(string, string)>
    /** Python's `float(value)`: a number, or None where it raises. */
    const toFloat: Value -> Option<real>
    /** rdflib's Turtle writer, given the prefix bindings and the triples. */
    const serialize: (seq<(string, string)>, set<Triple>) -> string

    /** A fresh converter holds an empty graph with the seven prefixes bound. */
    constructor (toFloat: Value -> Option<real>, serialize: (seq<(string, string)>, set<Triple>) -> string)
      ensures graph == {} && bindings == BINDINGS
      ensures this.toFloat == toFloat && this.serialize == serialize
    {
      graph := {};
      bindings := BINDINGS;
      this.toFloat := toFloat;
      this.serialize := serialize;
    }

    /** `graph.add`: adding a triple already present changes nothing. */
    method Add(t: Triple)
      modifies this
      ensures graph == old(graph) + {t}
    {
      graph := graph + {t};
    }

    /** `convert_to_rdf`: dispatch on the topic, then serialize the graph. */
    method ConvertToRdf(topic: string, data: Value) returns (r: Result<string, Error>)
      modifies this
      ensures graph == old(graph) + ConvertRun(topic, data, toFloat).added
      ensures r == Outcome(ConvertRun(topic, data, toFloat), serialize(bindings, graph))
    {
      var err: Option<Error>;
      if topic == "pv" {
        err := ProcessPv(data);
      } else if topic == "building" {
        err := ProcessBuilding(data);
      } else {
        return Failure(UnsupportedTopic(topic));
      }
      if err.Some? {
        return Failure(err.value);
      }
      return Success(serialize(bindings, graph));
    }

    /** `_process_pv_production`: six triples per measurement, numbered from 1. */
    method ProcessPv(data: Value) returns (err: Option<Error>)
      modifies this
      ensures graph == old(graph) + PvRun(data).added
      ensures err == PvRun(data).error
    {
      if !data.Obj? {
        return Some(NotAMapping);
      }
      var measurements := Iterate(Get(data.fields, "powerMeasurements").GetOr(Arr([])));
      if measurements.Failure? {
        return Some(measurements.error);
      }
      err := AddMeasurements(measurements.value);
    }

    /** The loop of `_process_pv_production` over the measurements: each dict
        adds its triples, and the first one that is not a dict raises. */
    method AddMeasurements(items: seq<Value>) returns (err: Option<Error>)
      modifies this
      ensures graph == old(graph) + PvAdded(items, LeadingMappings(items))
      ensures err == if LeadingMappings(items) < |items| then Some(NotAMapping) else None
    {
      var i := 0;
      while i < |items|
        invariant 0 <= i <= |items|
        invariant forall j :: 0 <= j < i ==> items[j].Obj?
        invariant graph == old(graph) + PvAdded(items, i)
      {
        if !items[i].Obj? {
          assert LeadingMappings(items) == i;
          return Some(NotAMapping);
        }
        AddMeasurement(i + 1, items[i].fields);
        i := i + 1;
      }
      assert LeadingMappings(items) == |items|;
      return None;
    }

    /** One measurement's six triples, under subject number i; a missing
        key falls back to `None`. */
    method AddMeasurement(i: nat, m: seq<(string, Value)>)
      modifies this
      ensures graph == old(graph) + MeasurementTriples(i, m)
    {
      var timestamp := Get(m, "timestamp").GetOr(Null);
      var value := Get(m, "value").GetOr(Null);
      var unit := Get(m, "unit").GetOr(Str("Watt"));
      var commodityQuantity := Get(m, "commodityQuantity").GetOr(Str(""));
      var s := Iri(PvSubject(i));
      Add(Triple(s, Iri(RDF_TYPE), Iri(POWER_MEASUREMENT)));
      Add(Triple(s, Iri(IS_ABOUT), Iri(PHOTOVOLTAIC)));
      Add(Triple(s, Iri(POWER_VALUE), TypedLiteral(value, XSD_FLOAT)));
      Add(Triple(s, Iri(IS_MEASURED_IN), PlainLiteral(unit)));
      Add(Triple(s, Iri(COMMODITY_QUANTITY), PlainLiteral(commodityQuantity)));
      Add(Triple(s, Iri(PV_TIMESTAMP), TypedLiteral(timestamp, XSD_DATETIME)));
    }

    /** `_process_building_data`: per row, the timestamp, then per column
        other than "timestamp" its type, value and timestamp triples. */
    method ProcessBuilding(data: Value) returns (err: Option<Error>)
      modifies this
      ensures graph == old(graph) + BuildingRun(data, toFloat).added
      ensures err == BuildingRun(data, toFloat).error
    {
      if !data.Arr? {
        return None;
      }
      var rows := data.items;
      ghost var runs := RowRuns(rows, toFloat);
      var i := 0;
      while i < |rows|
        invariant 0 <= i <= |rows|
        invariant Chain(runs[..i]).error == None
        invariant graph == old(graph) + Chain(runs[..i]).added
      {
        var timestamp := RowTimestamp(rows[i]);
        if timestamp.Failure? {
          ChainStops(runs, i);
          return Some(timestamp.error);
        }
        var iso := timestamp.value;
        var rowErr := AddColumns(i + 1, iso, rows[i].fields);
        assert runs[i] == ColumnsRun(i + 1, iso, rows[i].fields, toFloat);
        if rowErr.Some? {
          ChainStops(runs, i);
          return rowErr;
        }
        ChainSnoc(runs, i);
        i := i + 1;
      }
      assert runs[..i] == runs;
      return None;
    }

    /** The inner loop over the columns of row i (1-based), whose timestamp
        has already become `iso`. */
    method AddColumns(i: nat, iso: string, cols: seq<(string, Value)>) returns (err: Option<Error>)
      modifies this
      ensures graph == old(graph) + ColumnsRun(i, iso, cols, toFloat).added
      ensures err == ColumnsRun(i, iso, cols, toFloat).error
    {
      ghost var done: set<Triple> := {};
      var j := 0;
      while j < |cols|
        invariant 0 <= j <= |cols|
        invariant ColumnsRun(i, iso, cols, toFloat) == Extend(done, ColumnsRun(i, iso, cols[j..], toFloat))
        invariant graph == old(graph) + done
      {
        var key := cols[j].0;
        assert cols[j..][1..] == cols[j + 1..];
        if key != "timestamp" {
          var s := Iri(BuildingSubject(key, i));
          Add(Triple(s, Iri(RDF_TYPE), Iri(BuildingTypeIri(BuildingPropertyType(key)))));
          done := done + {TypeTriple(key, i)};
          var x := toFloat(cols[j].1);
          if x.None? {
            return Some(NotANumber(cols[j].1));
          }
          Add(Triple(s, Iri(BUILDING_VALUE), TypedLiteral(Num(x.value), XSD_FLOAT)));
          Add(Triple(s, Iri(BUILDING_TIMESTAMP), TypedLiteral(Str(iso), XSD_DATETIME)));
          done := done + {ValueTriple(key, i, x.value), TimeTriple(key, i, iso)};
        }
        j := j + 1;
      }
      assert cols[j..] == [];
      return None;
    }
  }
}
