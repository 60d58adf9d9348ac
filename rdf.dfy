/** RDF terms and the fixed vocabulary the converter writes with. A graph is
    a set of triples: adding a triple that is already there changes nothing. */
module Rdf {
  import opened Values

  /** A literal keeps the raw value it was built from; how rdflib turns that
      value into a lexical form is not part of this model. */
  datatype Term =
    | Iri(iri: string)
    | PlainLiteral(value: Value)
    | TypedLiteral(value: Value, datatypeIri: string)

  datatype Triple = Triple(subj: Term, pred: Term, obj: Term)

  // Namespaces, exactly as the converter declares them (the weather one
  // really ends in two '#').
  const SAREF := "https://saref.etsi.org/core/"
  const SAREF4ENER := "https://saref.etsi.org/saref4ener/"
  const SRI4BUILDING := "https://w3id.org/resonance/sri4building#"
  const SRI4WEATHER := "https://w3id.org/resonance/sri4weather##"
  const SRI4EV := "https://w3id.org/resonance/sri4ev#"
  const SRI4PV := "https://w3id.org/resonance/sri4pv#"
  const SRI4ALL := "https://w3id.org/resonance/sri4all#"

  /** The prefixes bound on the graph, in binding order; they only affect
      how the graph is written out. */
  const BINDINGS: seq<(string, string)> := [
    ("saref", SAREF), ("saref4ener", SAREF4ENER), ("sri4building", SRI4BUILDING),
    ("sri4weather", SRI4WEATHER), ("sri4ev", SRI4EV), ("sri4pv", SRI4PV), ("sri4all", SRI4ALL)
  ]

  const RDF_TYPE := "http://www.w3.org/1999/02/22-rdf-syntax-ns#type"
  const XSD_FLOAT := "http://www.w3.org/2001/XMLSchema#float"
  const XSD_DATETIME := "http://www.w3.org/2001/XMLSchema#dateTime"

  // Photovoltaic vocabulary.
  const POWER_MEASUREMENT := SRI4ALL + "PowerMeasurement"
  const POWER_VALUE := SRI4ALL + "powerValue"
  const IS_MEASURED_IN := SRI4ALL + "isMeasuredIn"
  const IS_ABOUT := SRI4PV + "isAbout"
  const PHOTOVOLTAIC := SRI4PV + "Photovoltaic"
  const PV_TIMESTAMP := SRI4PV + "timestamp"
  const COMMODITY_QUANTITY := SAREF4ENER + "CommodityQuantity"

  // Building vocabulary.
  const BUILDING_VALUE := SRI4BUILDING + "value"
  const BUILDING_TIMESTAMP := SRI4BUILDING + "timeStamp"
  const ENERGY_CONSUMPTION := SRI4BUILDING + "EnergyConsumption"
  const HEAT_CONSUMPTION := SRI4BUILDING + "HeatConsumption"
  const OUTDOOR_TEMPERATURE := SRI4BUILDING + "OutdoorTemperature"
  const INDOOR_TEMPERATURE := SRI4BUILDING + "IndoorTemperature"
  const INDOOR_TEMPERATURE_MEAN := SRI4BUILDING + "IndoorTemperatureMean"
  const UNKNOWN_MEASUREMENT := SRI4BUILDING + "UnknownMeasurement"

  // Subject prefixes (the photovoltaic one has a single '/' after "https:").
  const PV_MEASUREMENT := "https:/w3id.org/resonance/pv/measurement/"
  const BUILDING_MEASUREMENT := "https://w3id.org/resonance/building/measurement/"

  /** The subjects a graph speaks about. */
  function Subjects(g: set<Triple>): set<Term> {
    set t | t in g :: t.subj
  }

  lemma SubjectsUnion(a: set<Triple>, b: set<Triple>)
    ensures Subjects(a + b) == Subjects(a) + Subjects(b)
  {
  }
}
