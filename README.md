# SRI pipeline: semantic conversion and routing, modelled in Dafny

The SRI pipeline takes sensor readings and maps them onto the RESONANCE
vocabularies as RDF triples. The readings are photovoltaic production
records, sent as JSON, and building telemetry rows, sent as CSV. The
pipeline then publishes the Turtle text of the graph on a message-bus topic
chosen by the data type. This project models the two classes that do the
work:

- `RDFConverter` is modelled as the class `Converter.RdfConverter`.
  - It holds one graph, a `set<Triple>`, and keeps it for its whole life.
  - `ConvertToRdf` dispatches on the topic to `ProcessPv` and
    `ProcessBuilding`. Their loops are the methods `AddMeasurements` (one
    step is `AddMeasurement`), the row loop of `ProcessBuilding`, and
    `AddColumns`.
  - Each method is proved to add exactly the triples that a pure
    specification in module `Conversion` computes (`PvRun`, `BuildingRun`).
    It is also proved to raise exactly the exception that specification
    computes.
- `SemanticInterface` is modelled as the class `Semantic.SemanticInterface`.
  - Its topics table is `TOPICS`, and the topic choice is `RouteTopic`.
  - `ProcessInput` rejects unknown data types, converts, and publishes only
    when the conversion succeeds. The message bus is the class `Bus`, which
    logs what it is given.

Supporting modules:

- `Values` holds the loosely typed input records: Python's None, bool,
  number, str, list and dict. It also holds `d.get` and `for x in v`, and
  the exceptions a conversion can raise, as an `Error` datatype.
- `Decimal` writes `str(n)` and reads it back.
- `Percent` models `urllib.parse.quote` with its default safe set `/`:
  UTF-8 encoding, then percent-escaping. `Unquote` is its proved inverse.
- `Timestamps` models `datetime.strptime(text, "%d/%m/%Y %H:%M")` as
  CPython's regular expression reads that format. That includes one-digit
  fields, a space-padded day, any run of whitespace between date and time,
  and the calendar check. It also models `.isoformat()`, with its proved
  inverse `FromIso`.
- `Rdf` holds terms, triples, and the namespace constants exactly as the
  converter declares them. Two of them are kept as written:
  - the weather namespace ends in `##`;
  - the photovoltaic subject prefix reads `https:/w3id.org/...` with one
    slash.

The graph persists across calls. `self.graph` is created once in
`__init__` (`SRI_Pipeline/rdf_converter.py:17`) and never cleared, so
every call adds to it. The model follows this:

- `ConvertToRdf` ensures `graph == old(graph) + ConvertRun(...).added`.
- The text it returns, and the text `ProcessInput` publishes, is the
  serialization of the whole accumulated graph.
- Because the graph is a set, converting the same record again adds nothing
  new.

## Model

| member | source | states |
|---|---|---|
| Values.Get | SRI_Pipeline/rdf_converter.py:43-46 | `d.get(key)` finds nothing exactly when no pair has that key |
| Values.KeyIndex | SRI_Pipeline/rdf_converter.py:43-46 | the position of the first pair with the key: every pair before it has another key |
| Values.GetFirst | SRI_Pipeline/rdf_converter.py:43-46 | `d.get(key)` returns the value of the first pair with that key, and nothing exactly when there is no such pair |
| Values.Iterate | SRI_Pipeline/rdf_converter.py:42 | a `for` loop visits a list's items, a dict's keys as strings, a string's characters, and raises for None, bools and numbers |
| Conversion.ConvertRun | SRI_Pipeline/rdf_converter.py:28-35 | only the topics "pv" and "building" convert without raising; any other topic raises UnsupportedTopic and adds nothing |
| Conversion.MeasurementTriples | SRI_Pipeline/rdf_converter.py:43-57 | all six triples of a measurement speak about its own subject `.../measurement/{i}` and no other |
| Conversion.PvRun | SRI_Pipeline/rdf_converter.py:39-57 | input that is not a dict raises at once and adds nothing; the only exceptions are a measurement list that cannot be iterated and a measurement that is not a dict |
| Conversion.PvMeasurements | SRI_Pipeline/rdf_converter.py:41-42 | `data.get("powerMeasurements", [])` followed by the `for` over it: input that is not a dict raises, a missing key means no measurements, and anything else iterates as Python does. Its outcomes are stated by `PvRun` and `PvRunAllMeasurements` |
| Conversion.PvSubject | SRI_Pipeline/rdf_converter.py:49 | the measurement URI `https:/w3id.org/resonance/pv/measurement/{i}`, keeping the source's single slash after `https:`. Distinct numbers give distinct URIs (`PvSubjectInjective`), and a run's subjects are exactly numbers 1 to n (`PvAddedSubjects`) |
| Conversion.LeadingMappings | SRI_Pipeline/rdf_converter.py:42-43 | the measurement loop handles exactly the dicts at the front of the list and stops at the first one that is not a dict |
| Conversion.PvSubjectInjective | SRI_Pipeline/rdf_converter.py:49 | distinct measurement indices give distinct subject URIs |
| Conversion.PvAddedContains | SRI_Pipeline/rdf_converter.py:42-57 | each handled measurement contributes all six of its triples under subject number index+1 |
| Conversion.PvAddedSubjects | SRI_Pipeline/rdf_converter.py:42-57 | the first n measurements speak about exactly the subjects numbered 1..n |
| Conversion.PvSubjectSetSize | SRI_Pipeline/rdf_converter.py:49 | the subjects numbered 1..n are n distinct URIs |
| Conversion.PvRunAllMeasurements | SRI_Pipeline/rdf_converter.py:41-57 | N dict measurements convert without error into exactly N distinct subjects, each typed PowerMeasurement and about Photovoltaic |
| Conversion.PvMeasurementDefaults | SRI_Pipeline/rdf_converter.py:43-46 | a missing unit becomes "Watt", a missing commodity quantity becomes "", and a present timestamp is stored unchanged as an xsd:dateTime literal |
| Conversion.PvMissingKey | SRI_Pipeline/rdf_converter.py:41 | a dict without "powerMeasurements" converts to nothing and does not raise |
| Conversion.PvStopsAtNonMapping | SRI_Pipeline/rdf_converter.py:42-43 | a measurement that is not a dict raises, and only the measurements before it have been added |
| Conversion.BuildingPropertyType | SRI_Pipeline/rdf_converter.py:75-86 | a column gets UnknownMeasurement exactly when its name is not in the table; the three measurement points are exactly the IndoorTemperature names; the other four names map to their own types |
| Conversion.RowTimestamp | SRI_Pipeline/rdf_converter.py:63 | a row's timestamp converts exactly when the row is a dict whose "timestamp" is text that strptime accepts, and then gives the ISO form of the parsed time; otherwise it raises NotAMapping, MissingTimestamp, TimestampNotText, or the parse error, in that order of checks |
| Conversion.ColumnsRun | SRI_Pipeline/rdf_converter.py:64-73 | the only exception the column loop raises is NotANumber, for a value `float` refuses |
| Conversion.ColumnsRunOk | SRI_Pipeline/rdf_converter.py:64-73 | a row's columns go through exactly when `float` accepts every value outside the "timestamp" column |
| Conversion.RowRunOk | SRI_Pipeline/rdf_converter.py:61-73 | the run of the j-th row (0-based) goes through exactly when its timestamp parses and `float` accepts every value outside its "timestamp" column |
| Conversion.BuildingRun | SRI_Pipeline/rdf_converter.py:59-73 | input that is not a list adds nothing and does not raise; a list raises only a row error: a non-dict row, a missing or non-text timestamp, a timestamp strptime refuses, or a non-numeric value |
| Conversion.ChainRowError | SRI_Pipeline/rdf_converter.py:62 | the exception the row loop raises, if any, is the very exception of one of its rows; when every row can raise only row errors, so can the loop |
| Conversion.RowErrors | SRI_Pipeline/rdf_converter.py:62-73 | the row loop's exception, if any, is a row error: a non-dict row, a missing, non-text or unparsable timestamp, or a value `float` refuses |
| Conversion.ChainSplit | SRI_Pipeline/rdf_converter.py:62 | the outer row loop run over a prefix without error, then over the rest, is the loop over all rows |
| Conversion.ChainMember | SRI_Pipeline/rdf_converter.py:62 | in a conversion that does not raise, every row ran to the end and its triples are all in the result |
| Conversion.ChainOk | SRI_Pipeline/rdf_converter.py:62 | the row loop goes through exactly when every row does |
| Conversion.ChainSnoc | SRI_Pipeline/rdf_converter.py:62 | a row that converts extends the conversion of the rows before it |
| Conversion.ChainStops | SRI_Pipeline/rdf_converter.py:62-63 | the first row that raises ends the conversion, keeping what the rows before it added |
| Conversion.ChainAdded | SRI_Pipeline/rdf_converter.py:62 | a conversion adds no triple that some row did not add |
| Conversion.SlashSplit | SRI_Pipeline/rdf_converter.py:67 | `{key}/{i}` with a decimal i splits uniquely at its last '/' |
| Conversion.BuildingSubjectInjective | SRI_Pipeline/rdf_converter.py:66-67 | distinct (column, row) pairs get distinct subject URIs |
| Conversion.BuildingSubject | SRI_Pipeline/rdf_converter.py:66-67 | the measurement URI `https://w3id.org/resonance/building/measurement/{quote(key)}/{i}`. Distinct (column, row) pairs give distinct URIs (`BuildingSubjectInjective`), and the "timestamp" column is never one of them (`TimestampNeverSubject`) |
| Conversion.TypeTriple | SRI_Pipeline/rdf_converter.py:68-71 | a column's `rdf:type` triple, whose type comes from `BuildingPropertyType`. Presence and exactness are stated by `ColumnsRunComplete` and `ColumnsRunExact` |
| Conversion.ValueTriple | SRI_Pipeline/rdf_converter.py:72 | a column's value triple, an `xsd:float` literal of `float(value)`. Stated by `ColumnsRunComplete` and `ColumnsRunExact` |
| Conversion.TimeTriple | SRI_Pipeline/rdf_converter.py:73 | a column's timeStamp triple, an `xsd:dateTime` literal of the row's ISO timestamp. Stated by `ColumnsRunExact`, `RowRunTimeStamp` and `BuildingTimeStamps` |
| Conversion.ColumnsRunSubjects | SRI_Pipeline/rdf_converter.py:64-67 | every triple of a row speaks about one of its columns other than "timestamp" |
| Conversion.RowRunSubjects | SRI_Pipeline/rdf_converter.py:62-67 | every triple of row i speaks about a column of that same row (a dict) other than "timestamp", under number i |
| Conversion.RowRunsSubjects | SRI_Pipeline/rdf_converter.py:61-67 | every triple of the run of the j-th row (0-based) speaks about a column of that row other than "timestamp", under number j + 1 |
| Conversion.BuildingRunSubjects | SRI_Pipeline/rdf_converter.py:62-67 | every triple of a building conversion speaks about a column other than "timestamp" of some row j, under that row's 1-based number j + 1 |
| Conversion.AboutColumnSubject | SRI_Pipeline/rdf_converter.py:65-66 | a triple about a column of row i other than "timestamp" is not about the "timestamp" column of any row, nor about any column of another row |
| Conversion.LaterRowNotSubject | SRI_Pipeline/rdf_converter.py:62-66 | no triple of a building conversion speaks about a row number past its last row |
| Conversion.TimestampNeverSubject | SRI_Pipeline/rdf_converter.py:64-65 | the "timestamp" column never becomes a subject, whatever the input |
| Conversion.ColumnsRunComplete | SRI_Pipeline/rdf_converter.py:64-73 | in a row that converts, every column other than "timestamp" is a number and got its type, value and timestamp triples; unknown columns are never dropped |
| Conversion.ColumnsRunExact | SRI_Pipeline/rdf_converter.py:64-73 | a row's column loop adds nothing else: each triple is, for some column other than "timestamp", its type triple, or (when `float` accepts the value) its value triple or its timeStamp triple with the row's timestamp. This holds whether or not the loop raises |
| Conversion.RowRun | SRI_Pipeline/rdf_converter.py:62-73 | one pass of the row loop: the timestamp first, with nothing added if that raises, then the columns. Stated by `RowRunOk`, `RowRunSubjects` and `RowRunTimeStamp` |
| Conversion.RowRunTimeStamp | SRI_Pipeline/rdf_converter.py:62-73 | every timeStamp triple a row adds carries that row's own timestamp, parsed and written in ISO-8601 form |
| Conversion.RowRunsTimeStamp | SRI_Pipeline/rdf_converter.py:61-73 | the same for the run of the j-th row (0-based) |
| Conversion.OtherRowSubject | SRI_Pipeline/rdf_converter.py:61-67 | the run of the j-th row says nothing about a subject numbered other than j + 1 |
| Conversion.SubjectRow | SRI_Pipeline/rdf_converter.py:61-73 | every triple of a building conversion about a column of row j + 1 was added by the run of row j |
| Conversion.BuildingTimeStamps | SRI_Pipeline/rdf_converter.py:61-73 | in any building conversion, successful or not, every timeStamp triple about a column of row j + 1 carries row j's parsed timestamp. A subject never gets another row's date |
| Conversion.BuildingRowFacts | SRI_Pipeline/rdf_converter.py:62-73 | in a building conversion that succeeds, every column of row j has its type, its float value and the row's timestamp in ISO-8601 form, under subject number j+1 |
| Conversion.RowOfSuccess | SRI_Pipeline/rdf_converter.py:62-73 | in a building conversion that goes through, each row's timestamp parsed and its columns went through, all their triples kept |
| Conversion.BuildingSucceeds | SRI_Pipeline/rdf_converter.py:59-73 | a building conversion goes through exactly when every row's timestamp parses and `float` accepts every value outside the "timestamp" column |
| Conversion.ColumnsRunNotANumber | SRI_Pipeline/rdf_converter.py:71-72 | a non-numeric value raises NotANumber; the row has added exactly the triples of the columns before it plus this column's type triple, and neither this column's value and timeStamp triples nor anything of a later column |
| Conversion.BadTimestampRow | SRI_Pipeline/rdf_converter.py:62-63 | a row whose timestamp does not parse raises; the result is exactly the earlier rows' triples, and no subject of that row appears |
| Decimal.DigitsValueOfNatToString | SRI_Pipeline/rdf_converter.py:67 | reading back the decimal text of the row index gives the index |
| Decimal.NatToString | SRI_Pipeline/rdf_converter.py:49 | `str(n)` is a non-empty string of decimal digits with no leading zero unless n is 0 |
| Decimal.NatToStringInjective | SRI_Pipeline/rdf_converter.py:49 | distinct indices are written differently |
| Percent.Utf8RoundTrip | SRI_Pipeline/rdf_converter.py:66 | the UTF-8 encoding that quote applies first decodes back to the text |
| Percent.Quote | SRI_Pipeline/rdf_converter.py:66 | every '%' that quote writes starts an escape with two uppercase hex digits |
| Percent.QuoteByteEscape | SRI_Pipeline/rdf_converter.py:66 | a byte outside the safe set becomes '%' and two uppercase hex digits that spell its value |
| Percent.QuoteBytesUpperEscapes | SRI_Pipeline/rdf_converter.py:66 | percent-escaping a byte string only ever writes uppercase escapes |
| Percent.UnquoteQuote | SRI_Pipeline/rdf_converter.py:66 | percent-decoding undoes `quote(key)` |
| Percent.QuoteInjective | SRI_Pipeline/rdf_converter.py:66 | distinct column names are quoted differently |
| Percent.QuoteIdentityIff | SRI_Pipeline/rdf_converter.py:66 | `quote(key) == key` exactly when every character is a letter, a digit or one of `_.-~/` |
| Percent.QuoteLength | SRI_Pipeline/rdf_converter.py:66 | quoting never shortens a name, and lengthens any name that has a character to escape |
| Percent.QuoteAlphabet | SRI_Pipeline/rdf_converter.py:66 | quoted text holds only safe characters and '%' |
| Timestamps.MatchFormat | SRI_Pipeline/rdf_converter.py:63 | a match of `%d/%m/%Y %H:%M` yields fields within the format's ranges |
| Timestamps.MatchInRanges | SRI_Pipeline/rdf_converter.py:63 | every value a match of a directive list yields lies within the range its field's pattern can spell, one value per field, in order |
| Timestamps.MatchDayFirst | SRI_Pipeline/rdf_converter.py:63 | the zero-padded spelling `DD/MM/YYYY HH:MM` of in-range fields matches the format and yields those fields in order |
| Timestamps.ParseTimestamp | SRI_Pipeline/rdf_converter.py:63 | a parse that succeeds is a real calendar date; a failure is either a format mismatch or a matched text that is no date |
| Timestamps.ParseDayFirst | SRI_Pipeline/rdf_converter.py:63 | the zero-padded spelling of any in-range fields parses back to them exactly when they form a real date, and otherwise raises the out-of-range error |
| Timestamps.IsoFormat | SRI_Pipeline/rdf_converter.py:63 | isoformat writes 19 characters `YYYY-MM-DDTHH:MM:SS`, with zero seconds |
| Timestamps.IsoRoundTrip | SRI_Pipeline/rdf_converter.py:63 | reading an isoformat text gives back the date and time it was written from |
| Timestamps.IsoInjective | SRI_Pipeline/rdf_converter.py:63 | distinct times get distinct timestamp literals |
| Timestamps.LeapDayIff | SRI_Pipeline/rdf_converter.py:63 | 29 February parses exactly in Gregorian leap years |
| Timestamps.ExampleInput | SRI_Pipeline/rdf_converter.py:63 | 1 March 2024, 08:30 is spelled `01/03/2024 08:30` on input |
| Timestamps.ExampleOutput | SRI_Pipeline/rdf_converter.py:63 | the same instant is written `2024-03-01T08:30:00` |
| Timestamps.ExampleParses | SRI_Pipeline/rdf_converter.py:63 | `01/03/2024 08:30` parses to 1 March 2024, 08:30, and is written back as `2024-03-01T08:30:00` |
| Timestamps.NotADate | SRI_Pipeline/rdf_converter.py:63 | text without the separators raises the format-mismatch error |
| Converter.Outcome | SRI_Pipeline/rdf_converter.py:34-37 | the call returns the graph's text exactly when the conversion did not raise, and otherwise the exception |
| Converter.RdfConverter.constructor | SRI_Pipeline/rdf_converter.py:8-26 | a new converter has an empty graph and binds the seven prefixes |
| Converter.RdfConverter.Add | SRI_Pipeline/rdf_converter.py:52 | adding a triple puts it in the graph and changes nothing else |
| Converter.RdfConverter.ConvertToRdf | SRI_Pipeline/rdf_converter.py:28-37 | the graph grows by exactly the topic's conversion; the result is the whole graph's text, or the exception raised, including UnsupportedTopic |
| Converter.RdfConverter.ProcessPv | SRI_Pipeline/rdf_converter.py:39-57 | the loop adds exactly `PvRun(data).added` and raises exactly `PvRun(data).error` |
| Converter.RdfConverter.AddMeasurements | SRI_Pipeline/rdf_converter.py:42-57 | the measurement loop adds the triples of the dicts at the front of the list and raises NotAMapping exactly when a non-dict follows them |
| Converter.RdfConverter.AddMeasurement | SRI_Pipeline/rdf_converter.py:43-57 | one measurement adds exactly its six triples, with the `.get` defaults |
| Converter.RdfConverter.ProcessBuilding | SRI_Pipeline/rdf_converter.py:59-73 | the row loop adds exactly `BuildingRun(data).added` and raises exactly `BuildingRun(data).error`; anything but a list adds nothing |
| Converter.RdfConverter.AddColumns | SRI_Pipeline/rdf_converter.py:64-73 | the column loop adds exactly `ColumnsRun(...).added`, with the type triple before the float check |
| Semantic.TopicsAreIdentity | SRI_Pipeline/semantic_interface.py:8-14 | the table accepts exactly ev, pv, hvac, building and weather, each mapped to itself |
| Semantic.RouteTopic | SRI_Pipeline/semantic_interface.py:30-41 | pv goes to `resonance/sri/partner1/site1/pv`, building goes to `resonance/sri/partner2/site1/building`, and every other accepted type to `resonance/sri/` followed by its own name |
| Semantic.RouteTopicInjective | SRI_Pipeline/semantic_interface.py:32-41 | different data types are published on different topics |
| Semantic.OtherTypesUnsupported | SRI_Pipeline/semantic_interface.py:40-41 | ev, hvac and weather pass the check but are refused by the converter, so the generic topic branch is never reached |
| Semantic.Bus.Publish | SRI_Pipeline/semantic_interface.py:34 | publishing appends one (topic, payload) message |
| Semantic.SemanticInterface.constructor | SRI_Pipeline/semantic_interface.py:5-14 | the router keeps the given bus and converter, and its topics table is `TOPICS` |
| Semantic.SemanticInterface.ProcessInput | SRI_Pipeline/semantic_interface.py:22-41 | an unknown type raises InvalidDataType and changes nothing; otherwise the graph grows by the conversion, a failed conversion publishes nothing, and a successful one publishes the whole graph's text once, on `RouteTopic(dataType)` |

## Left out

- MQTT transport: connecting, `start`/`stop` and delivery are out of scope. `Bus` only logs what is published.
- Configuration loading, the interactive `main.py` loop, and its lowercasing of the typed data type are not part of this model.
- JSON and CSV file loading are not modelled. Input arrives as a `Value`.
- Python's `float()` is the converter parameter `toFloat`. The model does not say which strings or values it accepts, and uses no IEEE-754 arithmetic.
- rdflib's Turtle writer is the converter parameter `serialize`. The layout of the text and the prefix declarations are not modelled. The bindings are kept in the `bindings` field and passed to it.
- The lexical form that rdflib's `Literal` gives a value is not modelled. A literal holds the raw value and its datatype IRI. This changes which triples count as equal. `Num` keeps no int/float distinction, so `Literal(5)` and `Literal(5.0)` become one model value where rdflib keeps two literals. rdflib normalises lexical forms, so `Literal(5.2, datatype=XSD.float)` and `Literal("5.2", datatype=XSD.float)` are one rdflib literal but two model values. The model's graph can therefore merge or separate triples differently from rdflib's.
- Timestamps.MatchFormat: `\d` in CPython's regular expressions also matches non-ASCII decimal digits. The model accepts only ASCII digits.
- Percent.Quote: a lone surrogate code point, which `quote` cannot encode, is not a `char` value here.
- Non-text dict keys: a CSV row read by `csv.DictReader` that has more fields than the header carries the extra fields under the key `None`, and `quote(None)` at `SRI_Pipeline/rdf_converter.py:66` then raises TypeError, after the row's earlier columns were added and before that column's type triple. Keys of `Obj` are strings here, so this path is not modelled.
- Values.Get: a dict is a sequence of pairs and may repeat a key. `Get` returns the first match, and a building row's loop visits every pair.
- Bad input is not distinguished by exception class. `row['timestamp']` on a list row raises TypeError in Python, and a non-dict measurement raises AttributeError. The model reports both as `NotAMapping`.
- The PV loop's `measurement.get` on a non-dict, and `data.get` on a non-dict, are modelled as raising before any triple of that measurement is added.
