/**
 * JSON kept abstract. A decoded object is a map from field names to values. A text is
 * the encoding of an object, the encoding of some other JSON value, or malformed; the
 * encodings carry a `layout` that stands for everything decoding ignores (whitespace,
 * key order, escapes), so one object has many texts. `Dumps` is `json.dumps` with its
 * default arguments, which always writes layout 0, and `Loads` is `json.loads` followed
 * by the check that the result is an object.
 */
module Json {
  import opened Wrappers

  datatype Value = Str(s: string) | Int(i: int) | Bool(b: bool) | Null

  type Object = map<string, Value>

  /** `EncodedValue` stands for every JSON text whose value is not an object (a string, a number, a list, ...). */
  datatype Text = Encoded(obj: Object, layout: nat) | EncodedValue(v: Value, layout: nat) | Malformed(raw: string)

  /** `json.loads` succeeds: the text is JSON, whatever value it holds. */
  predicate Parses(t: Text) {
    !t.Malformed?
  }

  /** `json.dumps`: the text is JSON, and decoding it gives the object back. */
  function Dumps(o: Object): (t: Text)
    ensures Parses(t) && Loads(t) == Some(o)
  {
    Encoded(o, 0)
  }

  /** `json.loads`, keeping only results that are objects. */
  function Loads(t: Text): (r: Option<Object>)
    ensures r.Some? ==> Parses(t)
    ensures Parses(t) && r.None? <==> t.EncodedValue?
  {
    match t
    case Encoded(o, _) => Some(o)
    case _ => None
  }

  /** Re-encoding a decoded object gives a text that decodes to the same object. */
  lemma LoadsDumps(t: Text)
    requires Loads(t).Some?
    ensures Loads(Dumps(Loads(t).value)) == Loads(t)
  {
  }

  /** Re-encoding does not give back the text it decoded: a layout other than the default is lost. */
  lemma LayoutNotKept(o: Object)
    ensures Loads(Encoded(o, 1)) == Some(o) && Dumps(o) != Encoded(o, 1)
  {
  }
}
