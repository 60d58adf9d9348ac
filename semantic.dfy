/** The router between incoming records and the message bus: check the data
    type, convert through the shared converter, publish the Turtle text. */
module Semantic {
  import opened Values
  import opened Conversion
  import opened Converter

  /** The data types the router accepts, each mapped to its topic name. */
  const TOPICS: map<string, string> := map[
    "ev" := "ev",
    "pv" := "pv",
    "hvac" := "hvac",
    "building" := "building",
    "weather" := "weather"
  ]

  const BUS_PREFIX := "resonance/sri/"

  /** The topic a converted record of type `dataType` is published on. */
  function RouteTopic(dataType: string): (topic: string)
    requires dataType in TOPICS
    ensures |topic| > |BUS_PREFIX| && topic[..|BUS_PREFIX|] == BUS_PREFIX
    ensures dataType == "pv" ==> topic == "resonance/sri/partner1/site1/pv"
    ensures dataType == "building" ==> topic == "resonance/sri/partner2/site1/building"
    ensures dataType != "pv" && dataType != "building" ==> topic == BUS_PREFIX + dataType
  {
    if dataType == "pv" then "resonance/sri/partner1/site1/pv"
    else if dataType == "building" then "resonance/sri/partner2/site1/building"
    else BUS_PREFIX + TOPICS[dataType]
  }

  /** The table sends every accepted data type to a topic of the same name. */
  lemma TopicsAreIdentity()
    ensures TOPICS.Keys == {"ev", "pv", "hvac", "building", "weather"}
    ensures forall d :: d in TOPICS ==> TOPICS[d] == d
  {
  }

  /** Different data types are published on different topics. */
  lemma RouteTopicInjective(a: string, b: string)
    requires a in TOPICS && b in TOPICS
    requires RouteTopic(a) == RouteTopic(b)
    ensures a == b
  {
    var p := |BUS_PREFIX|;
    if a !in {"pv", "building"} && b !in {"pv", "building"} {
      assert RouteTopic(a)[p..] == a && RouteTopic(b)[p..] == b;
    }
  }

  /** "ev", "hvac" and "weather" pass the router's check but the converter
      refuses them, so the general `resonance/sri/{topic}` branch is never
      reached and nothing is converted. */
  lemma OtherTypesUnsupported(dataType: string, data: Value, toFloat: Value -> Option<real>)
    requires dataType in TOPICS && dataType != "pv" && dataType != "building"
    ensures ConvertRun(TOPICS[dataType], data, toFloat) == Run({}, Some(UnsupportedTopic(dataType)))
  {
  }

  /** The message bus, as far as the router uses it: the messages it was
      given, in order. */
  class Bus {
    var published: seq<(string, string)>

    constructor ()
      ensures published == []
    {
      published := [];
    }

    method Publish(topic: string, payload: string)
      modifies this
      ensures published == old(published) + [(topic, payload)]
    {
      published := published + [(topic, payload)];
    }
  }

  class SemanticInterface {
    const bus: Bus
    const converter: RdfConverter
    const topics: map<string, string> := TOPICS

    constructor (bus: Bus, converter: RdfConverter)
      ensures this.bus == bus && this.converter == converter
      ensures topics == TOPICS
    {
      this.bus := bus;
      this.converter := converter;
    }

    /** `process_input`: an unknown data type raises before anything
        happens; otherwise the record is converted, and only a conversion
        that goes through is published, once, as the whole graph's text. */
    method ProcessInput(dataType: string, data: Value) returns (err: Option<Error>)
      modifies bus, converter
      ensures dataType !in TOPICS ==>
                && err == Some(InvalidDataType(dataType))
                && converter.graph == old(converter.graph)
                && bus.published == old(bus.published)
      ensures dataType in TOPICS ==>
                var run := ConvertRun(TOPICS[dataType], data, converter.toFloat);
                && converter.graph == old(converter.graph) + run.added
                && err == run.error
                && (run.error.Some? ==> bus.published == old(bus.published))
                && (run.error.None? ==>
                      bus.published == old(bus.published)
                                       + [(RouteTopic(dataType), converter.serialize(converter.bindings, converter.graph))])
    {
      if dataType !in topics {
        return Some(InvalidDataType(dataType));
      }
      var rdfData := converter.ConvertToRdf(topics[dataType], data);
      if rdfData.Failure? {
        return Some(rdfData.error);
      }
      var topic := topics[dataType];
      if dataType == "pv" {
        bus.Publish("resonance/sri/partner1/site1/pv", rdfData.value);
      } else if dataType == "building" {
        bus.Publish("resonance/sri/partner2/site1/building", rdfData.value);
      } else {
        bus.Publish(BUS_PREFIX + topic, rdfData.value);
      }
      return None;
    }
  }
}
