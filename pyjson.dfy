/** The values `json.loads` produces, and Python's `str()` of them. */
module PyJson {
  import opened Outcomes
  import opened Text

  /** A parsed JSON document as Python holds it. An object is the `dict` that
      `json.loads` builds: its keys in insertion order, each key once. */
  datatype Json =
    | JNull
    | JBool(b: bool)
    | JInt(i: int)
    | JStr(s: string)
    | JArr(items: seq<Json>)
    | JObj(fields: seq<(string, Json)>)

  /** `isinstance(v, dict)`. */
  predicate IsDict(v: Json) {
    v.JObj?
  }

  /** `key in d` for a dict `d`. */
  predicate HasKey(v: Json, key: string) {
    v.JObj? && exists i :: 0 <= i < |v.fields| && v.fields[i].0 == key
  }

  /** The value stored under `key` in a list of fields, if any. */
  function Lookup(fields: seq<(string, Json)>, key: string): (r: Option<Json>)
    ensures r.Some? <==> exists i :: 0 <= i < |fields| && fields[i].0 == key
    ensures r.Some? ==> (key, r.value) in fields
  {
    if fields == [] then None
    else if fields[0].0 == key then Some(fields[0].1)
    else
      var r := Lookup(fields[1..], key);
      assert forall i :: 1 <= i < |fields| ==> fields[i] == fields[1..][i - 1];
      assert r.Some? ==> exists i :: 0 <= i < |fields[1..]| && fields[1..][i].0 == key;
      r
  }

  /** `d.get(key, default)` for a dict `d`. */
  function Get(d: Json, key: string, default: Json): (r: Json)
    requires IsDict(d)
    ensures HasKey(d, key) ==> (key, r) in d.fields
    ensures !HasKey(d, key) ==> r == default
  {
    Lookup(d.fields, key).GetOr(default)
  }

  /** A one-entry dict `{key: value}`. */
  function Singleton(key: string, value: Json): Json {
    JObj([(key, value)])
  }

  /** `str(v)`: a string is itself, everything else is its `repr`. */
  function PyStr(v: Json): (r: string)
    ensures r == [] <==> v == JStr("")
  {
    if v.JStr? then v.s else Repr(v)
  }

  /** `repr(v)`, as Python prints `None`, booleans, ints, lists and dicts. */
  function Repr(v: Json): (r: string)
    ensures r != []
    ensures r[0] in "NTF-0123456789'\"[{"
    decreases v, 1
  {
    match v
    case JNull => "None"
    case JBool(b) => if b then "True" else "False"
    case JInt(i) => IntToString(i)
    case JStr(s) => QuoteString(s)
    case JArr(items) => "[" + ReprItems(v, items) + "]"
    case JObj(fields) => "{" + ReprFields(v, fields) + "}"
  }

  /** The elements of a list, `repr`'d and separated by ", ". */
  function ReprItems(owner: Json, items: seq<Json>): string
    requires forall i :: 0 <= i < |items| ==> items[i] < owner
    decreases owner, 0, |items|
  {
    if items == [] then ""
    else if |items| == 1 then Repr(items[0])
    else Repr(items[0]) + ", " + ReprItems(owner, items[1..])
  }

  /** The entries of a dict, each as `'key': value`, separated by ", ". */
  function ReprFields(owner: Json, fields: seq<(string, Json)>): string
    requires forall i :: 0 <= i < |fields| ==> fields[i].1 < owner
    decreases owner, 0, |fields|
  {
    if fields == [] then ""
    else
      var entry := QuoteString(fields[0].0) + ": " + Repr(fields[0].1);
      if |fields| == 1 then entry else entry + ", " + ReprFields(owner, fields[1..])
  }

  /** `repr(s)` of a string: single quotes unless the text holds a single quote and
      no double quote; backslash, the chosen quote, tab, newline and carriage return
      escaped. */
  function QuoteString(s: string): (r: string)
    ensures |r| >= 2 && r[0] == r[|r| - 1] && r[0] in {'\'', '"'}
  {
    var q := if '\'' in s && '"' !in s then '"' else '\'';
    [q] + EscapeString(s, q) + [q]
  }

  function EscapeString(s: string, q: char): string {
    if s == [] then ""
    else
      var c := s[0];
      var e :=
        if c == q || c == '\\' then ['\\', c]
        else if c == '\t' then "\\t"
        else if c == '\n' then "\\n"
        else if c == '\r' then "\\r"
        else [c];
      e + EscapeString(s[1..], q)
  }
}
