/** The push endpoint's body: a decoded JSON value, and Python's `int(x)` and
    `float(x)` applied to the values a JSON decoder can produce. */
module Payload {
  import opened Wrappers
  import opened Numbers

  /** What `request.json` can hand over: JSON numbers decode to `int` when
      written without fraction or exponent and to `float` otherwise. */
  datatype Json =
    | JNull
    | JBool(b: bool)
    | JInt(i: int)
    | JFloat(f: Float)
    | JString(s: string)
    | JArray(items: seq<Json>)
    | JObject(fields: map<string, Json>)

  /** Python's `int(x)` of a finite float: truncation toward zero. */
  function Truncate(x: real): (n: int)
    ensures 0.0 <= x ==> 0 <= n && n as real <= x < n as real + 1.0
    ensures x < 0.0 ==> n <= 0 && n as real - 1.0 < x <= n as real
  {
    if x >= 0.0 then x.Floor else -((-x).Floor)
  }

  /** Python's `int(v)`; None where Python raises (TypeError for null, lists
      and objects, ValueError for NaN or a malformed string, OverflowError for
      an infinity). A bool is an int in Python. */
  function ToInt(v: Json): (r: Option<int>)
    ensures v.JInt? ==> r == Some(v.i)
    ensures v.JString? ==> r == ParseInt(v.s)
    ensures (v.JNull? || v.JArray? || v.JObject?) ==> r.None?
    ensures v.JBool? ==> r == Some(if v.b then 1 else 0)
    ensures v.JFloat? ==> (r.Some? <==> v.f.Finite?)
    ensures v.JFloat? && v.f.Finite? ==> r == Some(Truncate(v.f.value))
  {
    match v
    case JBool(b) => Some(if b then 1 else 0)
    case JInt(i) => Some(i)
    case JFloat(f) => if f.Finite? then Some(Truncate(f.value)) else None
    case JString(s) => ParseInt(s)
    case _ => None
  }

  /** Python's `float(v)`; None where Python raises. */
  function ToFloat(v: Json): (r: Option<Float>)
    ensures v.JBool? ==> r == Some(Finite(if v.b then 1.0 else 0.0))
    ensures v.JFloat? ==> r == Some(v.f)
    ensures v.JInt? ==> r == Some(Finite(v.i as real))
    ensures v.JString? ==> r == ParseFloat(v.s)
    ensures (v.JNull? || v.JArray? || v.JObject?) ==> r.None?
  {
    match v
    case JBool(b) => Some(Finite(if b then 1.0 else 0.0))
    case JInt(i) => Some(Finite(i as real))
    case JFloat(f) => Some(f)
    case JString(s) => ParseFloat(s)
    case _ => None
  }

  /** `data[key]`: only an object with that key yields a value; a missing key
      raises KeyError and any other value raises TypeError. */
  function Field(data: Json, key: string): (r: Option<Json>)
    ensures r.Some? <==> data.JObject? && key in data.fields
    ensures r.Some? ==> r.value == data.fields[key]
  {
    if data.JObject? && key in data.fields then Some(data.fields[key]) else None
  }

  /** For every value that is not already a float, `int()` and `float()`
      agree: whatever `int()` accepts, `float()` accepts with the same value. */
  lemma IntAgreesWithFloat(v: Json)
    requires !v.JFloat?
    ensures ToInt(v).Some? ==> ToFloat(v) == Some(Finite(ToInt(v).value as real))
  {
    if v.JString? {
      IntTextIsFloat(v.s);
    }
  }

  /** `int()` of a finite float moves it toward zero by less than one; of an
      infinity or NaN it fails. */
  lemma FloatToIntTruncates(f: Float)
    ensures f.Finite? ==>
      var n := ToInt(JFloat(f)).value;
      && (0.0 <= f.value ==> 0 <= n && n as real <= f.value < n as real + 1.0)
      && (f.value < 0.0 ==> n <= 0 && n as real - 1.0 < f.value <= n as real)
    ensures !f.Finite? ==> ToInt(JFloat(f)) == None
  {
  }
}
