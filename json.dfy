/** JSON values as the Python code sees them after `json.loads` (dicts,
    lists, strings, ints, floats, booleans, None), plus the timestamp type
    used for every `datetime` of the model. */
module Json {

  import opened Wrappers

  /** A point in time, in whole seconds since the Unix epoch, UTC. */
  type Timestamp = int

  /** A float is carried as its textual form: nothing in the modelled code
      computes with one, it is only stored and passed on. */
  datatype Json =
    | JNull
    | JBool(b: bool)
    | JInt(i: int)
    | JFloat(text: string)
    | JStr(s: string)
    | JArr(elems: seq<Json>)
    | JObj(fields: map<string, Json>)

  function DigitChar(d: nat): (c: char)
    requires d < 10
    ensures '0' <= c <= '9'
  {
    ('0' as int + d) as char
  }

  /** Decimal digits of a natural number, most significant first. */
  function NatToString(n: nat): (s: string)
    ensures |s| > 0
    ensures forall k :: 0 <= k < |s| ==> '0' <= s[k] <= '9'
    decreases n
  {
    if n < 10 then [DigitChar(n)] else NatToString(n / 10) + [DigitChar(n % 10)]
  }

  function IntToString(i: int): (s: string)
    ensures |s| > 0
    ensures s[0] == '-' <==> i < 0
  {
    if i < 0 then "-" + NatToString(-i) else NatToString(i)
  }

  /** Python's `str(v)` (and so `f"{v}"`) of a JSON value: a string is its
      own text, None is "None", booleans are "True"/"False", numbers their
      decimal form. Lists and dicts are rendered as a fixed marker. */
  function Display(j: Json): (s: string)
    ensures j.JStr? ==> s == j.s
  {
    match j
    case JNull => "None"
    case JBool(b) => if b then "True" else "False"
    case JInt(i) => IntToString(i)
    case JFloat(t) => t
    case JStr(s) => s
    case JArr(_) => "[...]"
    case JObj(_) => "{...}"
  }

  /** `str(x)` of an optional string attribute. */
  function DisplayOpt(s: Option<string>): string
  {
    match s
    case None => "None"
    case Some(v) => v
  }
}
