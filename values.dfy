/** Loosely-typed input records and the failures a conversion can raise.

    `Value` is the shape of what the converter receives after JSON or CSV
    loading: Python's None, bool, number, str, list and dict. A dict is a
    sequence of (key, value) pairs in insertion order. */
module Values {

  datatype Option<+T> = None | Some(value: T) {
    function GetOr(default: T): T {
      match this
      case Some(v) => v
      case None => default
    }
  }

  datatype Result<+R, +E> = Success(value: R) | Failure(error: E)

  datatype Value =
    | Null
    | Bool(b: bool)
    | Num(x: real)
    | Str(s: string)
    | Arr(items: seq<Value>)
    | Obj(fields: seq<(string, Value)>)

  /** What the converter and the router raise, one kind per cause. */
  datatype Error =
    | InvalidDataType(tag: string)      // ValueError in process_input
    | UnsupportedTopic(topic: string)   // ValueError in convert_to_rdf
    | NotAMapping                       // .get, .items or ['timestamp'] on something that is not a dict
    | NotIterable                       // a for loop over None, a bool or a number
    | MissingTimestamp                  // KeyError: a building row without a 'timestamp' column
    | TimestampNotText                  // TypeError: strptime given something that is not a str
    | TimestampMismatch(text: string)   // ValueError: text does not match '%d/%m/%Y %H:%M'
    | DateOutOfRange(text: string)      // ValueError: matches the format but is no calendar date
    | NotANumber(raw: Value)            // float(value) fails

  /** The position of the first pair with that key, or |fields| if there is none. */
  function KeyIndex(fields: seq<(string, Value)>, key: string): (i: nat)
    ensures i <= |fields|
    ensures forall j :: 0 <= j < i ==> fields[j].0 != key
    ensures i < |fields| ==> fields[i].0 == key
  {
    if fields == [] || fields[0].0 == key then 0 else 1 + KeyIndex(fields[1..], key)
  }

  /** `d.get(key)`: the value of the first pair with that key. */
  function Get(fields: seq<(string, Value)>, key: string): (r: Option<Value>)
    ensures r.None? <==> forall i :: 0 <= i < |fields| ==> fields[i].0 != key
  {
    if fields == [] then None
    else if fields[0].0 == key then Some(fields[0].1)
    else
      Get(fields[1..], key)
  }

  /** `d.get(key)` finds the value of the first pair with that key, and
      finds nothing exactly when no pair has it. */
  lemma {:induction false} GetFirst(fields: seq<(string, Value)>, key: string)
    ensures Get(fields, key).None? <==> KeyIndex(fields, key) == |fields|
    ensures Get(fields, key).Some? ==> Get(fields, key).value == fields[KeyIndex(fields, key)].1
  {
    if fields != [] && fields[0].0 != key {
      GetFirst(fields[1..], key);
    }
  }

  /** The elements Python's `for x in v` visits: a list's items, a dict's
      keys, a string's characters; anything else is not iterable. */
  function Iterate(v: Value): (r: Result<seq<Value>, Error>)
    ensures v.Arr? ==> r == Success(v.items)
    ensures v.Obj? ==> r.Success? && |r.value| == |v.fields|
                       && forall i :: 0 <= i < |v.fields| ==> r.value[i] == Str(v.fields[i].0)
    ensures v.Str? ==> r.Success? && |r.value| == |v.s|
                       && forall i :: 0 <= i < |v.s| ==> r.value[i] == Str([v.s[i]])
    ensures r.Failure? <==> (v.Null? || v.Bool? || v.Num?)
    ensures r.Failure? ==> r.error == NotIterable
  {
    match v
    case Arr(items) => Success(items)
    case Obj(fields) => Success(seq(|fields|, i requires 0 <= i < |fields| => Str(fields[i].0)))
    case Str(s) => Success(seq(|s|, i requires 0 <= i < |s| => Str([s[i]])))
    case _ => Failure(NotIterable)
  }
}
